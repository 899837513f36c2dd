/**
 * internal/task/service.go: the task domain service.
 *
 * The service turns raw caller input into validated parameters and hands
 * them to the repository, or rejects the input with a ValidationError before
 * the repository is touched. What each operation accepts, and the parameters
 * it produces, is given by a specification function (`CreateParamsFor`,
 * `ListFilterFor`, `UpdateParamsFor`); the lemmas below state the rules of
 * the service about those functions, and the methods of `Service`, written
 * step by step as the Go code is, are proved to follow them.
 */
module TaskService {
  import opened Wrappers
  import opened Clock
  import opened Text
  import opened TaskErrors
  import opened TaskTypes
  import opened TaskRepository

  const DefaultPriority: Uint8 := 3
  const MinPriority: Uint8 := 1
  const MaxPriority: Uint8 := 5
  const DefaultLimit: Int64 := 20
  const MaxLimit: Int64 := 100
  const MaxTitleLength := 255

  const EmptyTitle := Validation("title", "must not be empty")
  const LongTitle := Validation("title", "must be at most 255 characters")
  const BadStatus := Validation("status", "must be one of: new, in_progress, done")
  const BadPriority := Validation("priority", "must be between 1 and 5")
  const BadDueAt := Validation("due_at", "must be a valid timestamp")
  const DueAtConflict := Validation("due_at", "cannot be provided when clear_due_at is true")
  const BadId := Validation("id", "must be greater than 0")
  const BadOffset := Validation("offset", "must be greater or equal to 0")
  const EmptyBody := Validation("body", "at least one field must be provided for update")

  /** The field names the service can reject. */
  const ServiceFields: set<string> := {"title", "status", "priority", "due_at", "id", "offset", "body"}

  // ---------------------------------------------------------------- invariants of validated data

  predicate ValidTitle(t: string) {
    t != [] && Trimmed(t) && ByteLen(t) <= MaxTitleLength
  }

  predicate ValidPriority(p: int) {
    MinPriority as int <= p <= MaxPriority as int
  }

  /** A due date, when present, is a real instant in UTC. */
  predicate ValidDueAt(d: Option<Time>) {
    d.Some? ==> !IsZero(d.value) && IsUtc(d.value)
  }

  predicate ValidCreateParams(p: CreateParams) {
    && ValidTitle(p.title)
    && Trimmed(p.description)
    && IsValid(p.status)
    && ValidPriority(p.priority)
    && ValidDueAt(p.dueAt)
  }

  /** The number of fields an update touches. */
  function FieldCount(p: UpdateParams): nat {
    (if p.title.Some? then 1 else 0) + (if p.description.Some? then 1 else 0)
    + (if p.status.Some? then 1 else 0) + (if p.priority.Some? then 1 else 0)
    + (if p.dueAt.Some? then 1 else 0) + (if p.clearDueAt then 1 else 0)
  }

  predicate ValidUpdateParams(p: UpdateParams) {
    && (p.title.Some? ==> ValidTitle(p.title.value))
    && (p.description.Some? ==> Trimmed(p.description.value))
    && (p.status.Some? ==> IsValid(p.status.value))
    && (p.priority.Some? ==> ValidPriority(p.priority.value))
    && ValidDueAt(p.dueAt)
    && !(p.dueAt.Some? && p.clearDueAt)
    && FieldCount(p) > 0
  }

  predicate ValidFilter(f: ListFilter) {
    && (f.status.Some? ==> IsValid(f.status.value))
    && Trimmed(f.query)
    && 1 <= f.limit <= MaxLimit
    && f.offset >= 0
  }

  // ---------------------------------------------------------------- field rules

  /** A raw title that Create and Update refuse: blank after trimming, or over 255 bytes. */
  predicate BadTitle(raw: string) {
    TrimSpace(raw) == [] || ByteLen(TrimSpace(raw)) > MaxTitleLength
  }

  /** The title rule Create and Update both apply (written out twice in the Go code). */
  function NormalizeTitle(raw: string): (r: Result<string>)
    ensures r.Ok? <==> !BadTitle(raw)
    ensures r.Ok? ==> r.value == TrimSpace(raw) && ValidTitle(r.value)
    ensures r.Err? ==> r.error == (if TrimSpace(raw) == [] then EmptyTitle else LongTitle)
  {
    var title := TrimSpace(raw);
    if title == [] then Err(EmptyTitle)
    else if ByteLen(title) > MaxTitleLength then Err(LongTitle)
    else Ok(title)
  }

  /** parseStatus: trim, lower-case, and accept the result only if it is a valid status. */
  function ParseStatus(raw: string): (r: Result<Status>)
    ensures r.Ok? <==> IsValid(ToLower(TrimSpace(raw)))
    ensures r.Ok? ==> r.value == ToLower(TrimSpace(raw)) && IsValid(r.value)
    ensures r.Err? ==> r.error == BadStatus
  {
    var status := ToLower(TrimSpace(raw));
    if !IsValid(status) then Err(BadStatus) else Ok(status)
  }

  /** validatePriority: accept exactly 1..5, unchanged. */
  function ValidatePriority(raw: Int64): (r: Result<Uint8>)
    ensures r.Ok? <==> ValidPriority(raw)
    ensures r.Ok? ==> r.value == raw
    ensures r.Err? ==> r.error == BadPriority
  {
    if raw < MinPriority as int || raw > MaxPriority as int then Err(BadPriority) else Ok(raw)
  }

  /** normalizeDueAt: absent stays absent, the zero time is refused, any other time moves to UTC. */
  function NormalizeDueAt(dueAt: Option<Time>): (r: Result<Option<Time>>)
    ensures dueAt.None? ==> r == Ok(None)
    ensures dueAt.Some? && IsZero(dueAt.value) ==> r == Err(BadDueAt)
    ensures dueAt.Some? && !IsZero(dueAt.value) ==>
      r.Ok? && r.value.Some? && Equal(r.value.value, dueAt.value) && r.value == Some(UTC(dueAt.value))
    ensures r.Ok? ==> ValidDueAt(r.value)
  {
    match dueAt
    case None => Ok(None)
    case Some(t) => if IsZero(t) then Err(BadDueAt) else Ok(Some(UTC(t)))
  }

  /** A status string Create or List accepts: absent (empty) or parsable. */
  predicate StatusAccepted(raw: string) {
    raw == "" || IsValid(ToLower(TrimSpace(raw)))
  }

  function OptionalTitle(raw: Option<string>): Result<Option<string>> {
    match raw
    case None => Ok(None)
    case Some(t) => var title :- NormalizeTitle(t); Ok(Some(title))
  }

  function OptionalStatus(raw: Option<string>): Result<Option<Status>> {
    match raw
    case None => Ok(None)
    case Some(s) => var status :- ParseStatus(s); Ok(Some(status))
  }

  function OptionalPriority(raw: Option<Int64>): Result<Option<Uint8>> {
    match raw
    case None => Ok(None)
    case Some(p) => var priority :- ValidatePriority(p); Ok(Some(priority))
  }

  // ---------------------------------------------------------------- Create

  /** What Create hands to the repository, or the validation error it returns instead. */
  function CreateParamsFor(input: CreateTaskInput): (r: Result<CreateParams>)
    ensures r.Ok? ==> ValidCreateParams(r.value)
    ensures r.Ok? ==> r.value.title == TrimSpace(input.title) && r.value.description == TrimSpace(input.description)
    ensures r.Err? ==> r.error.Validation? && r.error.field in ServiceFields
  {
    var title :- NormalizeTitle(input.title);
    var status :- if input.status == "" then Ok(StatusNew) else ParseStatus(input.status);
    var priority :- if input.priority == 0 then Ok(DefaultPriority) else ValidatePriority(input.priority);
    var dueAt :- NormalizeDueAt(input.dueAt);
    Ok(CreateParams(title, TrimSpace(input.description), status, priority, dueAt))
  }

  /** The title is checked first: Create fails on field "title" exactly when the title is bad. */
  lemma CreateTitleRule(input: CreateTaskInput)
    ensures BadTitle(input.title) <==>
      (CreateParamsFor(input).Err? && CreateParamsFor(input).error.field == "title")
  {
  }

  /** With a good title, Create fails on field "status" exactly when a supplied status does not parse. */
  lemma CreateStatusRule(input: CreateTaskInput)
    requires !BadTitle(input.title)
    ensures CreateParamsFor(input) == Err(BadStatus) <==> !StatusAccepted(input.status)
  {
  }

  /** Priority 0 means "not supplied"; any other value outside 1..5 fails on field "priority". */
  lemma CreatePriorityRule(input: CreateTaskInput)
    requires !BadTitle(input.title) && StatusAccepted(input.status)
    ensures CreateParamsFor(input) == Err(BadPriority) <==> input.priority != 0 && !ValidPriority(input.priority)
  {
  }

  /** With the other fields good, Create fails only on a zero due date, and otherwise succeeds. */
  lemma CreateDueAtRule(input: CreateTaskInput)
    requires !BadTitle(input.title) && StatusAccepted(input.status)
    requires input.priority == 0 || ValidPriority(input.priority)
    ensures CreateParamsFor(input) == Err(BadDueAt) <==> input.dueAt.Some? && IsZero(input.dueAt.value)
    ensures CreateParamsFor(input).Err? <==> input.dueAt.Some? && IsZero(input.dueAt.value)
  {
  }

  /** Supplied values reach the repository normalised: status lower-cased, priority as given, due date in UTC. */
  lemma CreateKeepsSuppliedValues(input: CreateTaskInput)
    requires CreateParamsFor(input).Ok?
    ensures var p := CreateParamsFor(input).value;
      && (input.status != "" ==> p.status == ToLower(TrimSpace(input.status)))
      && (input.priority != 0 ==> p.priority == input.priority)
      && (input.dueAt.Some? ==> p.dueAt == Some(UTC(input.dueAt.value)))
      && (input.dueAt.None? ==> p.dueAt.None?)
  {
  }

  /** Omitted status, priority and due date default to "new", 3 and none. */
  lemma CreateDefaults(input: CreateTaskInput)
    requires !BadTitle(input.title)
    requires input.status == "" && input.priority == 0 && input.dueAt.None?
    ensures CreateParamsFor(input) ==
      Ok(CreateParams(TrimSpace(input.title), TrimSpace(input.description), StatusNew, DefaultPriority, None))
  {
  }

  /** A status of blanks is supplied, not omitted: it trims to "" and is refused. */
  lemma CreateBlankStatusRefused(input: CreateTaskInput)
    requires !BadTitle(input.title)
    requires input.status != "" && AllSpace(input.status)
    ensures CreateParamsFor(input) == Err(BadStatus)
  {
    ParseStatusBlank(input.status);
  }

  /** A blank status trims to "", which is not a status. */
  lemma ParseStatusBlank(raw: string)
    requires AllSpace(raw)
    ensures ParseStatus(raw) == Err(BadStatus)
  {
    TrimSpaceEmpty(raw);
    assert ToLower(TrimSpace(raw)) == [];
  }

  /** The defaults-and-trims example of the service test (padding written out). */
  lemma CreateExampleDefaultsAndTrims()
    ensures CreateParamsFor(CreateTaskInput("  " + "Do work" + "  ", "  " + "important task" + "  ", "", 0, None))
         == Ok(CreateParams("Do work", "important task", StatusNew, DefaultPriority, None))
  {
    var input := CreateTaskInput("  " + "Do work" + "  ", "  " + "important task" + "  ", "", 0, None);
    ExampleTitleTrimmed();
    ExampleDescriptionTrimmed();
    CreateDefaults(input);
  }

  lemma ExampleTitleTrimmed()
    ensures TrimSpace("  " + "Do work" + "  ") == "Do work" && !BadTitle("  " + "Do work" + "  ")
  {
    TrimSpaceOfPadded("  ", "Do work", "  ");
    ByteLenBounds("Do work");
  }

  lemma ExampleDescriptionTrimmed()
    ensures TrimSpace("  " + "important task" + "  ") == "important task"
  {
    TrimSpaceOfPadded("  ", "important task", "  ");
  }

  /** The title limit counts bytes: 256 ASCII letters are refused, and so are 128 two-byte letters. */
  lemma TitleLimitCountsBytes()
    ensures BadTitle(seq(256, _ => 'a'))
    ensures BadTitle(seq(128, _ => '\U{00E9}'))
    ensures !BadTitle(seq(255, _ => 'a'))
  {
    var a256, e128, a255 := seq(256, _ => 'a'), seq(128, _ => '\U{00E9}'), seq(255, _ => 'a');
    ByteLenRepeat('a', 256);
    ByteLenRepeat('\U{00E9}', 128);
    ByteLenRepeat('a', 255);
    TrimSpaceOfTrimmed(a256);
    TrimSpaceOfTrimmed(e128);
    TrimSpaceOfTrimmed(a255);
  }

  /** parseStatus ignores surrounding white space (" done " is "done")... */
  lemma ParseStatusTrims()
    ensures ParseStatus(" " + "done" + " ") == Ok(StatusDone)
  {
    TrimSpaceOfPadded(" ", "done", " ");
    IsValidIsNormal(StatusDone);
  }

  /** ...but not a misspelling (" donee " is refused)... */
  lemma ParseStatusRefusesTypo()
    ensures ParseStatus(" " + "donee" + " ") == Err(BadStatus)
  {
    DoneeTrimmed();
    TrimSpaceOfPadded(" ", "donee", " ");
    DoneeNotStatus();
  }

  lemma DoneeTrimmed()
    ensures Trimmed("donee")
  {
  }

  lemma DoneeNotStatus()
    ensures ToLower("donee") == "donee" && !IsValid("donee")
  {
    LowerAsciiIsNormal("donee");
  }

  /** ...and it folds case ("IN_PROGRESS" is "in_progress"). */
  lemma ParseStatusFoldsCase()
    ensures ParseStatus("IN_PROGRESS") == Ok(StatusInProgress)
  {
    TrimSpaceOfTrimmed("IN_PROGRESS");
    assert ToLower("IN_PROGRESS") == StatusInProgress;
  }

  /** Parsing a valid status gives it back, so parsing is idempotent. */
  lemma ParseStatusIdempotent(raw: string)
    requires ParseStatus(raw).Ok?
    ensures ParseStatus(ParseStatus(raw).value) == ParseStatus(raw)
  {
    IsValidIsNormal(ParseStatus(raw).value);
  }

  /** White space around a status never changes the outcome of parsing it. */
  lemma ParseStatusIgnoresPadding(pre: string, raw: string, post: string)
    requires AllSpace(pre) && AllSpace(post)
    ensures ParseStatus(pre + raw + post) == ParseStatus(raw)
  {
    TrimSpaceIgnoresPadding(pre, raw, post);
  }

  // ---------------------------------------------------------------- List

  /** What List hands to the repository, or the validation error it returns instead. */
  function ListFilterFor(input: ListTasksInput): (r: Result<ListFilter>)
    ensures r.Ok? ==> ValidFilter(r.value)
    ensures r.Ok? ==> r.value.query == TrimSpace(input.query) && r.value.offset == input.offset
    ensures r.Err? ==> r.error.Validation? && r.error.field in ServiceFields
  {
    var status :- OptionalStatus(if input.status == "" then None else Some(input.status));
    var limit: Int64 :=
      if input.limit <= 0 then DefaultLimit
      else if input.limit > MaxLimit then MaxLimit
      else input.limit;
    if input.offset < 0 then Err(BadOffset)
    else Ok(ListFilter(status, TrimSpace(input.query), limit, input.offset))
  }

  /** The limit is clamped, never refused: 0 or less becomes 20, over 100 becomes 100, the rest stays. */
  lemma ListLimitClamp(input: ListTasksInput)
    requires ListFilterFor(input).Ok?
    ensures var limit := ListFilterFor(input).value.limit;
      && (input.limit <= 0 ==> limit == DefaultLimit)
      && (input.limit > MaxLimit ==> limit == MaxLimit)
      && (0 < input.limit <= MaxLimit ==> limit == input.limit)
  {
  }

  /** List fails exactly on a bad status or a negative offset, and the status is checked first. */
  lemma ListErrors(input: ListTasksInput)
    ensures ListFilterFor(input).Err? <==> !StatusAccepted(input.status) || input.offset < 0
    ensures !StatusAccepted(input.status) ==> ListFilterFor(input) == Err(BadStatus)
    ensures StatusAccepted(input.status) && input.offset < 0 ==> ListFilterFor(input) == Err(BadOffset)
  {
  }

  /** A supplied status becomes an equality filter on its parsed value; an empty one none. */
  lemma ListStatusFilter(input: ListTasksInput)
    requires ListFilterFor(input).Ok?
    ensures input.status == "" ==> ListFilterFor(input).value.status == None
    ensures input.status != "" ==> ListFilterFor(input).value.status == Some(ToLower(TrimSpace(input.status)))
  {
  }

  /** The example of the service test: status and query trimmed, limit capped, offset kept. */
  lemma ListExampleNormalises()
    ensures ListFilterFor(ListTasksInput(" " + "done" + " ", "  " + "search text" + "  ", 999, 5))
         == Ok(ListFilter(Some(StatusDone), "search text", MaxLimit, 5))
  {
    ParseStatusTrims();
    TrimSpaceOfPadded("  ", "search text", "  ");
  }

  /** A limit of 0 becomes the default 20. */
  lemma ListExampleDefaultLimit()
    ensures ListFilterFor(ListTasksInput("", "", 0, 0)) == Ok(ListFilter(None, "", DefaultLimit, 0))
  {
    TrimSpaceOfTrimmed("");
  }

  /** An offset of -1 is refused, and so is the status "bad". */
  lemma ListExampleRefusals()
    ensures ListFilterFor(ListTasksInput("", "", 0, -1)) == Err(BadOffset)
    ensures ListFilterFor(ListTasksInput("bad", "", 0, 0)) == Err(BadStatus)
  {
    LowerAsciiIsNormal("bad");
  }

  // ---------------------------------------------------------------- Update

  /** The number of fields an update input supplies. */
  function SuppliedCount(input: UpdateTaskInput): nat {
    (if input.title.Some? then 1 else 0) + (if input.description.Some? then 1 else 0)
    + (if input.status.Some? then 1 else 0) + (if input.priority.Some? then 1 else 0)
    + (if input.dueAt.Some? then 1 else 0) + (if input.clearDueAt then 1 else 0)
  }

  /** What Update hands to the repository, or the validation error it returns instead. */
  function UpdateParamsFor(id: Uint64, input: UpdateTaskInput): (r: Result<UpdateParams>)
    ensures r.Ok? ==> ValidUpdateParams(r.value)
    ensures r.Err? ==> r.error.Validation? && r.error.field in ServiceFields
  {
    if id == 0 then Err(BadId)
    else if input.clearDueAt && input.dueAt.Some? then Err(DueAtConflict)
    else
      var title :- OptionalTitle(input.title);
      var description := if input.description.None? then None else Some(TrimSpace(input.description.value));
      var status :- OptionalStatus(input.status);
      var priority :- OptionalPriority(input.priority);
      var dueAt :- NormalizeDueAt(input.dueAt);
      if SuppliedCount(input) == 0 then Err(EmptyBody)
      else Ok(UpdateParams(title, description, status, priority, dueAt, input.clearDueAt))
  }

  /** Id 0 is refused before anything else is looked at, and only it fails on field "id". */
  lemma UpdateIdRule(id: Uint64, input: UpdateTaskInput)
    ensures id == 0 <==> UpdateParamsFor(id, input) == Err(BadId)
    ensures UpdateParamsFor(id, input).Err? && UpdateParamsFor(id, input).error.field == "id" ==> id == 0
  {
  }

  /** A due date together with clear_due_at is refused next, whatever the other fields hold. */
  lemma UpdateConflictRule(id: Uint64, input: UpdateTaskInput)
    requires id != 0 && input.clearDueAt && input.dueAt.Some?
    ensures UpdateParamsFor(id, input) == Err(DueAtConflict)
  {
  }

  /** Then the supplied fields are checked in order: title, status, priority, due date. */
  lemma UpdateFieldOrder(id: Uint64, input: UpdateTaskInput)
    requires id != 0 && !(input.clearDueAt && input.dueAt.Some?)
    ensures input.title.Some? && BadTitle(input.title.value) ==>
      UpdateParamsFor(id, input) == NormalizeTitle(input.title.value).PropagateFailure()
    ensures OptionalTitle(input.title).Ok? && input.status.Some? && ParseStatus(input.status.value).Err? ==>
      UpdateParamsFor(id, input) == Err(BadStatus)
    ensures OptionalTitle(input.title).Ok? && OptionalStatus(input.status).Ok? &&
            input.priority.Some? && !ValidPriority(input.priority.value) ==>
      UpdateParamsFor(id, input) == Err(BadPriority)
    ensures OptionalTitle(input.title).Ok? && OptionalStatus(input.status).Ok? && OptionalPriority(input.priority).Ok? &&
            input.dueAt.Some? && IsZero(input.dueAt.value) ==>
      UpdateParamsFor(id, input) == Err(BadDueAt)
  {
  }

  /** Priority 0 is a value in Update, not an absence as in Create, so it is refused. */
  lemma UpdatePriorityZeroRefused(id: Uint64, input: UpdateTaskInput)
    requires id != 0 && !(input.clearDueAt && input.dueAt.Some?)
    requires OptionalTitle(input.title).Ok? && OptionalStatus(input.status).Ok?
    requires input.priority == Some(0)
    ensures UpdateParamsFor(id, input) == Err(BadPriority)
  {
  }

  /** An update that supplies nothing is refused on field "body" instead of succeeding as a no-op. */
  lemma UpdateBodyRule(id: Uint64, input: UpdateTaskInput)
    ensures UpdateParamsFor(id, input) == Err(EmptyBody) <==> id != 0 && SuppliedCount(input) == 0
  {
  }

  /**
   * Update fails exactly when one of its checks does: the id, the due date
   * conflict, a supplied title, status, priority or due date, or an empty body.
   */
  lemma UpdateErrors(id: Uint64, input: UpdateTaskInput)
    ensures UpdateParamsFor(id, input).Err? <==>
      || id == 0
      || (input.clearDueAt && input.dueAt.Some?)
      || OptionalTitle(input.title).Err?
      || OptionalStatus(input.status).Err?
      || OptionalPriority(input.priority).Err?
      || (input.dueAt.Some? && IsZero(input.dueAt.value))
      || SuppliedCount(input) == 0
  {
  }

  /** A successful update sets exactly the supplied fields, each normalised. */
  lemma UpdateSetsSuppliedFields(id: Uint64, input: UpdateTaskInput)
    requires UpdateParamsFor(id, input).Ok?
    ensures var p := UpdateParamsFor(id, input).value;
      && (p.title.Some? <==> input.title.Some?)
      && (input.title.Some? ==> p.title.value == TrimSpace(input.title.value))
      && (p.description.Some? <==> input.description.Some?)
      && (input.description.Some? ==> p.description.value == TrimSpace(input.description.value))
      && (p.status.Some? <==> input.status.Some?)
      && (input.status.Some? ==> p.status.value == ToLower(TrimSpace(input.status.value)))
      && (p.priority.Some? <==> input.priority.Some?)
      && (input.priority.Some? ==> p.priority.value == input.priority.value)
      && (p.dueAt.Some? <==> input.dueAt.Some?)
      && (input.dueAt.Some? ==> p.dueAt.value == UTC(input.dueAt.value))
      && p.clearDueAt == input.clearDueAt
      && FieldCount(p) == SuppliedCount(input) > 0
  {
  }

  /** clear_due_at alone is a valid update that clears the due date and sets nothing else. */
  lemma UpdateClearDueAtOnly(id: Uint64)
    requires id != 0
    ensures UpdateParamsFor(id, UpdateTaskInput(None, None, None, None, None, true))
         == Ok(UpdateParams(None, None, None, None, None, true))
  {
  }

  // ---------------------------------------------------------------- the service

  /** service: the validation layer in front of a repository. */
  class Service {
    const repo: RecordingRepository

    constructor (repo: RecordingRepository)
      ensures this.repo == repo
    {
      this.repo := repo;
    }

    method Create(input: CreateTaskInput) returns (r: Result<Task>)
      modifies repo
      ensures CreateParamsFor(input).Err? ==>
        r == Err(CreateParamsFor(input).error) && repo.calls == old(repo.calls)
      ensures CreateParamsFor(input).Ok? ==>
        repo.calls == old(repo.calls) + [CreateCall(CreateParamsFor(input).value)] && r == repo.createReply
    {
      var title := TrimSpace(input.title);
      if title == [] {
        return Err(EmptyTitle);
      }
      if ByteLen(title) > MaxTitleLength {
        return Err(LongTitle);
      }

      var status := StatusNew;
      if input.status != "" {
        var parsedStatus := ParseStatus(input.status);
        if parsedStatus.Err? {
          return Err(parsedStatus.error);
        }
        status := parsedStatus.value;
      }

      var priority := DefaultPriority;
      if input.priority != 0 {
        var validatedPriority := ValidatePriority(input.priority);
        if validatedPriority.Err? {
          return Err(validatedPriority.error);
        }
        priority := validatedPriority.value;
      }

      var dueAt := NormalizeDueAt(input.dueAt);
      if dueAt.Err? {
        return Err(dueAt.error);
      }

      r := repo.Create(CreateParams(title, TrimSpace(input.description), status, priority, dueAt.value));
    }

    method GetByID(id: Uint64) returns (r: Result<Task>)
      modifies repo
      ensures id == 0 ==> r == Err(BadId) && repo.calls == old(repo.calls)
      ensures id != 0 ==> repo.calls == old(repo.calls) + [GetByIdCall(id)] && r == repo.getReply
    {
      if id == 0 {
        return Err(BadId);
      }
      r := repo.GetByID(id);
    }

    method List(input: ListTasksInput) returns (r: Result<seq<Task>>)
      modifies repo
      ensures ListFilterFor(input).Err? ==>
        r == Err(ListFilterFor(input).error) && repo.calls == old(repo.calls)
      ensures ListFilterFor(input).Ok? ==>
        repo.calls == old(repo.calls) + [ListCall(ListFilterFor(input).value)] && r == repo.listReply
    {
      var filter := ListFilter(None, TrimSpace(input.query), input.limit, input.offset);

      if input.status != "" {
        var parsedStatus := ParseStatus(input.status);
        if parsedStatus.Err? {
          return Err(parsedStatus.error);
        }
        filter := filter.(status := Some(parsedStatus.value));
      }

      if filter.limit <= 0 {
        filter := filter.(limit := DefaultLimit);
      }
      if filter.limit > MaxLimit {
        filter := filter.(limit := MaxLimit);
      }
      if filter.offset < 0 {
        return Err(BadOffset);
      }

      r := repo.List(filter);
    }

    method Update(id: Uint64, input: UpdateTaskInput) returns (r: Result<Task>)
      modifies repo
      ensures UpdateParamsFor(id, input).Err? ==>
        r == Err(UpdateParamsFor(id, input).error) && repo.calls == old(repo.calls)
      ensures UpdateParamsFor(id, input).Ok? ==>
        repo.calls == old(repo.calls) + [UpdateCall(id, UpdateParamsFor(id, input).value)] && r == repo.updateReply
    {
      if id == 0 {
        return Err(BadId);
      }
      if input.clearDueAt && input.dueAt.Some? {
        return Err(DueAtConflict);
      }

      var params := UpdateParams(None, None, None, None, None, false);
      var fieldsToUpdate := 0;

      if input.title.Some? {
        var title := TrimSpace(input.title.value);
        if title == [] {
          return Err(EmptyTitle);
        }
        if ByteLen(title) > MaxTitleLength {
          return Err(LongTitle);
        }
        params := params.(title := Some(title));
        fieldsToUpdate := fieldsToUpdate + 1;
      }

      if input.description.Some? {
        params := params.(description := Some(TrimSpace(input.description.value)));
        fieldsToUpdate := fieldsToUpdate + 1;
      }

      if input.status.Some? {
        var status := ParseStatus(input.status.value);
        if status.Err? {
          return Err(status.error);
        }
        params := params.(status := Some(status.value));
        fieldsToUpdate := fieldsToUpdate + 1;
      }

      if input.priority.Some? {
        var priority := ValidatePriority(input.priority.value);
        if priority.Err? {
          return Err(priority.error);
        }
        params := params.(priority := Some(priority.value));
        fieldsToUpdate := fieldsToUpdate + 1;
      }

      if input.dueAt.Some? {
        var dueAt := NormalizeDueAt(input.dueAt);
        if dueAt.Err? {
          return Err(dueAt.error);
        }
        params := params.(dueAt := dueAt.value);
        fieldsToUpdate := fieldsToUpdate + 1;
      }

      if input.clearDueAt {
        params := params.(clearDueAt := true);
        fieldsToUpdate := fieldsToUpdate + 1;
      }

      if fieldsToUpdate == 0 {
        return Err(EmptyBody);
      }

      r := repo.Update(id, params);
    }

    method Delete(id: Uint64) returns (r: Option<Error>)
      modifies repo
      ensures id == 0 ==> r == Some(BadId) && repo.calls == old(repo.calls)
      ensures id != 0 ==> repo.calls == old(repo.calls) + [DeleteCall(id)] && r == repo.deleteReply
    {
      if id == 0 {
        return Some(BadId);
      }
      r := repo.Delete(id);
    }
  }
}

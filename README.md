# task_tracker: the task core in Dafny

This project models the core of the task tracker:

- the task domain service, which validates caller input and hands it to storage;
- its value types, the `Status` enum and the error values;
- the storage contract, with a recording test double that mirrors the mock repository of the service's tests;
- the MySQL repository: the SQL it builds for each operation, its mapping of missing rows and "zero rows affected" to `ErrTaskNotFound`, and its conversion of nullable columns.

Modules follow the Go packages and files:

| file | module | models |
|---|---|---|
| `wrappers.dfy` | `Wrappers` | `Option`, standing for Go's nil-able pointers |
| `errors.dfy` | `TaskErrors` | `ValidationError`, `ErrTaskNotFound`, `sql.ErrNoRows`, other store errors, and how each renders |
| `clock.dfy` | `Clock` | `time.Time` reduced to an instant and a location: `IsZero`, `UTC` and `Equal` |
| `text.dfy` | `Text` | `strings.TrimSpace`, `strings.ToLower`, byte length `len`, and `strings.Join` |
| `types.dfy` | `TaskTypes` | `Status` with `IsValid`, and the input, params and filter records |
| `repository.dfy` | `TaskRepository` | the `Repository` contract as a `Call` log, and the recording double |
| `service.dfy` | `TaskService` | the service |
| `sql.dfy` | `Sql` | the part of `database/sql` the repository uses, as an oracle that logs statements |
| `mysql.dfy` | `MySqlRepository` | the MySQL repository |

**How the service is modelled.** Each service operation has a specification function: `CreateParamsFor`, `ListFilterFor` and `UpdateParamsFor`. Each gives either the validated parameters or the validation error. The lemmas state the service's rules about these functions:

- the order in which fields are checked;
- the defaults;
- the clamping of the list limit;
- the partial-update rules.

The `Service` class holds a `RecordingRepository`. Its methods are written step by step, as the Go code is. Each method is proved to do one of two things. Either it returns the specification function's error without calling the repository, or it makes exactly one call carrying the specification function's parameters and returns the repository's reply unchanged.

**How the MySQL repository is modelled.** The database is an oracle. It logs every statement and answers it with a reply chosen by the statement's position in the log and by the statement itself. Every statement the repository sends has a specification function, such as `UpdateStatement(id, Assignments(p))` or `ListStatement(f)`. The methods that build these statements (`SetClauses`, `BuildListStatement`) and the `rows.Next()` loop (`CollectTasks`) are proved equal to their specification functions. Lemmas about those functions prove three things:

- there is one argument per `?` placeholder;
- clauses and arguments come in a fixed order;
- the SQL text depends only on which fields or filters are present, never on the caller's values.

## Model

| member | source | states |
|---|---|---|
| TaskTypes.IsValid | internal/task/types.go:13-20 | definition; its properties are in the TaskTypes lemma rows below |
| TaskTypes.NamedStatusesValid | internal/task/types.go:13-17 | `new`, `in_progress` and `done` are valid |
| TaskTypes.IsValidExactlyThree | internal/task/types.go:13-20 | a status is valid if and only if it is one of the three names |
| TaskTypes.IsValidRejectsOthers | internal/task/types_test.go:13-14 | `""` and `"other"` are not valid |
| TaskTypes.StatusesDistinct | internal/task/types.go:8-10 | the three status constants are pairwise distinct |
| TaskTypes.IsValidIsNormal | internal/task/types.go:14-15 | a valid status is already trimmed and lower case, so `parseStatus` normalisation leaves it unchanged |
| TaskTypes.IsValidRejectsPadding | internal/task/types.go:14-15 | `IsValid` compares exactly: a valid status with a leading or trailing space is invalid |
| TaskTypes.IsValidRejectsUpperCase | internal/task/types.go:14-15 | `IsValid` does not fold case: upper-casing any letter of a valid status makes it invalid |
| TaskErrors.Text | internal/task/errors.go:14-16 | definition of `Error()`; its properties are in ValidationTextLayout, ValidationTextInjective and NotFoundIsNotValidation |
| TaskErrors.ValidationTextLayout | internal/task/errors.go:14-16 | `Error()` of a ValidationError is `"invalid "`, then the field, then `": "`, then the message, with these exact positions and length |
| TaskErrors.ValidationTextExample | internal/task/types_test.go:24-33 | field `status` with message `must be valid` renders `invalid status: must be valid` |
| TaskErrors.ValidationTextInjective | internal/task/errors.go:14-16 | for fields without a colon, the rendered text determines both the field and the message |
| TaskErrors.NotFoundIsNotValidation | internal/task/errors.go:5-7 | `ErrTaskNotFound` differs from every ValidationError, both as a value and as text |
| Clock.UTC | internal/task/service.go:210 | `UTC()` keeps the instant, sets the location to UTC, keeps zero-ness, and leaves a UTC time unchanged |
| Text.TrimSpace | internal/task/service.go:35 | the result is trimmed, and the input is white space, then the result, then white space |
| Text.TrimSpaceOfPadded | internal/task/service.go:35 | trimming any white-space padding around a trimmed string gives back exactly that string |
| Text.TrimSpaceIdempotent | internal/task/service.go:35 | trimming twice is trimming once |
| Text.TrimSpaceEmpty | internal/task/service.go:35-37 | a string trims to `""` if and only if it is all white space |
| Text.TrimSpaceOfTrimmed | internal/task/service.go:35 | a trimmed string is its own trim |
| Text.TrimSpaceIgnoresPadding | internal/task/service.go:187 | added white space never changes the trim of a string |
| Text.LowerChar | internal/task/service.go:187 | definition of the per-character lower case (A-Z, U+0130 and U+212A); its properties are in the ToLower rows |
| Text.ToLower | internal/task/service.go:187 | definition; its properties are in ToLowerPointwise, ToLowerNoUpperAscii, ToLowerIdempotent, ToLowerIgnoresAsciiCase and LowerAsciiIsNormal |
| Text.ToLowerPointwise | internal/task/service.go:187 | lower-casing keeps the length and distributes over concatenation |
| Text.ToLowerNoUpperAscii | internal/task/service.go:187 | no upper-case ASCII letter is left after lower-casing |
| Text.ToLowerIdempotent | internal/task/service.go:187 | lowering twice is lowering once |
| Text.ToLowerIgnoresAsciiCase | internal/task/service.go:187 | strings that differ only in the case of ASCII letters lower to the same string |
| Text.LowerAsciiIsNormal | internal/task/service.go:187 | lower-case ASCII letters and underscores are left alone by both trimming and lower-casing |
| Text.ByteLen | internal/task/service.go:39 | definition of Go's `len` on a string; its properties are in ByteLenBounds, ByteLenAscii and ByteLenRepeat |
| Text.ByteLenBounds | internal/task/service.go:39 | the byte length of a string lies between its number of characters and four times that |
| Text.ByteLenAscii | internal/task/service.go:39 | for ASCII text, the byte length is the number of characters |
| Text.ByteLenRepeat | internal/task/service.go:39 | n copies of a character take n times its UTF-8 width |
| Text.Join | internal/task/repository/mysql/repository.go:153 | definition of `strings.Join`; its properties are in JoinTwo and Sql.JoinPlaceholders |
| Text.JoinTwo | internal/task/repository/mysql/repository.go:93 | joining two parts puts the separator between them |
| TaskRepository.RecordingRepository.constructor | internal/task/service_test.go:11-35 | a new double has an empty call log and answers with the given replies |
| TaskRepository.RecordingRepository.Create | internal/task/service_test.go:37-44 | logs exactly one Create call with its params and returns the configured reply |
| TaskRepository.RecordingRepository.GetByID | internal/task/service_test.go:46-53 | logs exactly one GetByID call with its id and returns the configured reply |
| TaskRepository.RecordingRepository.List | internal/task/service_test.go:55-62 | logs exactly one List call with its filter and returns the configured reply |
| TaskRepository.RecordingRepository.Update | internal/task/service_test.go:64-72 | logs exactly one Update call with its id and params and returns the configured reply |
| TaskRepository.RecordingRepository.Delete | internal/task/service_test.go:74-78 | logs exactly one Delete call with its id and returns the configured error |
| TaskService.NormalizeTitle | internal/task/service.go:35-41 | a title is accepted if and only if it is non-blank and at most 255 bytes after trimming. The accepted title is the trimmed one. A blank title fails with "must not be empty", a long one with "must be at most 255 characters" |
| TaskService.ParseStatus | internal/task/service.go:186-192 | succeeds if and only if the lower-cased trim is a valid status, and then returns it; otherwise returns the status error |
| TaskService.ValidatePriority | internal/task/service.go:194-199 | succeeds if and only if the priority is in 1..5, and returns it unchanged; otherwise returns the priority error |
| TaskService.NormalizeDueAt | internal/task/service.go:201-212 | nil stays nil; the zero time fails on `due_at`; any other time becomes the same instant in UTC |
| TaskService.CreateParamsFor | internal/task/service.go:34-72 | accepted parameters are valid, with title and description trimmed; every failure is a ValidationError on one of the service's fields |
| TaskService.CreateTitleRule | internal/task/service.go:35-41 | Create fails on field `title` if and only if the title is bad |
| TaskService.CreateStatusRule | internal/task/service.go:43-50 | with a good title, Create fails on `status` if and only if a supplied status does not parse |
| TaskService.CreatePriorityRule | internal/task/service.go:52-59 | priority 0 means absent; with title and status good, Create fails on `priority` if and only if a non-zero priority is outside 1..5 |
| TaskService.CreateDueAtRule | internal/task/service.go:61-64 | with the other fields good, Create fails if and only if the due date is the zero time, and then on `due_at` |
| TaskService.CreateKeepsSuppliedValues | internal/task/service.go:43-72 | a supplied status reaches the repository lower-cased and trimmed, a supplied priority unchanged, and a supplied due date in UTC |
| TaskService.CreateDefaults | internal/task/service.go:43-72 | omitted status, priority and due date become `new`, 3 and nil |
| TaskService.CreateBlankStatusRefused | internal/task/service.go:44-48 | a status made only of blanks is a supplied value, not an omitted one, and fails on `status` |
| TaskService.ParseStatusBlank | internal/task/service.go:186-190 | an all-white-space status fails to parse |
| TaskService.CreateExampleDefaultsAndTrims | internal/task/service_test.go:80-115 | `"  Do work  "` and `"  important task  "` with nothing else reach the repository trimmed, with status `new`, priority 3 and no due date |
| TaskService.TitleLimitCountsBytes | internal/task/service.go:39-41 | 256 ASCII letters are refused, and so are 128 two-byte letters (256 bytes); 255 ASCII letters are accepted |
| TaskService.ParseStatusTrims | internal/task/service_test.go:256 | `" done "` parses to `done` |
| TaskService.ParseStatusRefusesTypo | internal/task/service_test.go:157-159 | `" donee "` fails on `status` |
| TaskService.ParseStatusFoldsCase | internal/task/service.go:187 | `"IN_PROGRESS"` parses to `in_progress` |
| TaskService.ParseStatusIdempotent | internal/task/service.go:186-192 | parsing a parsed status gives it back |
| TaskService.ParseStatusIgnoresPadding | internal/task/service.go:187 | white space around a status never changes the outcome of parsing it |
| TaskService.ListFilterFor | internal/task/service.go:82-107 | an accepted filter is valid: limit in 1..100, trimmed query, non-negative offset, and a valid status if present. The query is the trimmed input and the offset is the input's. Failures are ValidationErrors |
| TaskService.ListLimitClamp | internal/task/service.go:97-102 | a limit of 0 or less becomes 20, one over 100 becomes 100, and any other limit is kept |
| TaskService.ListErrors | internal/task/service.go:89-105 | List fails if and only if the status is bad or the offset is negative; the status is checked first |
| TaskService.ListStatusFilter | internal/task/service.go:89-95 | an empty status gives no filter; any other status gives an equality filter on its parsed value |
| TaskService.ListExampleNormalises | internal/task/service_test.go:255-278 | `" done "`, `"  search text  "`, 999, 5 give status `done`, query `search text`, limit 100 and offset 5 |
| TaskService.ListExampleDefaultLimit | internal/task/service_test.go:281-299 | limit 0 becomes 20 |
| TaskService.ListExampleRefusals | internal/task/service_test.go:235-252 | offset -1 fails on `offset`; status `bad` fails on `status` |
| TaskService.UpdateParamsFor | internal/task/service.go:110-176 | accepted parameters are valid: each field well-formed, no due date together with clear, at least one field. Failures are ValidationErrors |
| TaskService.UpdateIdRule | internal/task/service.go:111-113 | id 0 fails on `id` before anything else, and only id 0 fails on `id` |
| TaskService.UpdateConflictRule | internal/task/service.go:115-117 | a due date together with clear_due_at fails next on `due_at`, whatever else is supplied |
| TaskService.UpdateFieldOrder | internal/task/service.go:122-165 | the supplied fields are then checked in order: title, status, priority, due date. The first bad one decides the error |
| TaskService.UpdatePriorityZeroRefused | internal/task/service.go:149-153 | in Update a supplied priority 0 is refused, unlike in Create |
| TaskService.UpdateBodyRule | internal/task/service.go:172-174 | Update fails on `body` if and only if the id is non-zero and no field is supplied |
| TaskService.UpdateErrors | internal/task/service.go:110-176 | Update fails if and only if one of its checks fails: id 0, a due date with clear, a bad supplied title, status, priority or due date, or no supplied field |
| TaskService.UpdateSetsSuppliedFields | internal/task/service.go:119-170 | a successful update sets exactly the supplied fields, each normalised. The number of fields set equals the number supplied, and is positive |
| TaskService.UpdateClearDueAtOnly | internal/task/service_test.go:398-422 | clear_due_at alone is accepted and yields clear = true, no due date and no other field |
| TaskService.Service.constructor | internal/task/service.go:30-32 | the service wraps the given repository |
| TaskService.Service.Create | internal/task/service.go:34-73 | on a validation error, returns it with no repository call; otherwise makes exactly one Create call with `CreateParamsFor(input)` and returns the reply unchanged |
| TaskService.Service.GetByID | internal/task/service.go:75-80 | id 0 fails on `id` with no call; otherwise makes exactly one GetByID call and returns the reply unchanged |
| TaskService.Service.List | internal/task/service.go:82-108 | on a validation error, returns it with no call; otherwise makes exactly one List call with `ListFilterFor(input)` and returns the reply unchanged |
| TaskService.Service.Update | internal/task/service.go:110-177 | on a validation error, returns it with no call; otherwise makes exactly one Update call with the id and `UpdateParamsFor(id, input)` and returns the reply unchanged |
| TaskService.Service.Delete | internal/task/service.go:179-184 | id 0 fails on `id` with no call; otherwise makes exactly one Delete call and returns its error unchanged |
| Sql.JoinPlaceholders | internal/task/repository/mysql/repository.go:153 | joining well-formed fragments with a separator that has no placeholder gives one placeholder per argument |
| Sql.Database.constructor | internal/task/repository/mysql/repository.go:14-16 | a new handle has an empty statement log |
| Sql.Database.Exec | internal/task/repository/mysql/repository.go:175 | logs the statement and returns the oracle's reply for its position |
| Sql.Database.QueryRow | internal/task/repository/mysql/repository.go:58 | logs the statement and returns the oracle's row reply for its position |
| Sql.Database.Query | internal/task/repository/mysql/repository.go:99 | logs the statement and returns the oracle's result-set reply for its position |
| MySqlRepository.AsNullableTime | internal/task/repository/mysql/repository.go:233-238 | nil becomes NULL, and only nil does; a time is sent as the same instant in UTC |
| MySqlRepository.ScanTask | internal/task/repository/mysql/repository.go:195-231 | a Scan error is returned unchanged. Otherwise a NULL description becomes `""` and a NULL due date nil, and every timestamp is the same instant in UTC |
| MySqlRepository.ScanKeepsUtcRow | internal/task/repository/mysql/repository.go:222-228 | timestamps already in UTC come back identical |
| MySqlRepository.FoundTask | internal/task/repository/mysql/repository.go:59-67 | no-rows becomes `ErrTaskNotFound`; every other error passes through unchanged; no-rows itself never escapes |
| MySqlRepository.FoundTaskNotFound | internal/task/repository/mysql/repository.go:59-65 | GetByID reports not-found if and only if the row was missing, or the store reported not-found itself |
| MySqlRepository.ToUint64 | internal/task/repository/mysql/repository.go:43-48 | `uint64(id)`: non-negative ids are kept and negative ones wrap modulo 2^64 |
| MySqlRepository.InsertSqlPlaceholders | internal/task/repository/mysql/repository.go:25-28 | the INSERT text has five placeholders |
| MySqlRepository.SelectByIdSqlPlaceholders | internal/task/repository/mysql/repository.go:52-56 | the GetByID text has one placeholder |
| MySqlRepository.DeleteSqlPlaceholders | internal/task/repository/mysql/repository.go:173 | the DELETE text has one placeholder |
| MySqlRepository.OrderTailPlaceholders | internal/task/repository/mysql/repository.go:96 | the ORDER/LIMIT/OFFSET tail has two placeholders |
| MySqlRepository.QueryConditionPlaceholders | internal/task/repository/mysql/repository.go:86 | the text-search condition has two placeholders |
| MySqlRepository.InsertStatement | internal/task/repository/mysql/repository.go:25-38 | definition of the INSERT and its five arguments; its properties are in InsertBound and CreateReadsBack |
| MySqlRepository.SelectById | internal/task/repository/mysql/repository.go:52-58 | definition of the GetByID SELECT; its properties are in SelectByIdBound |
| MySqlRepository.DeleteStatement | internal/task/repository/mysql/repository.go:173-175 | definition of the DELETE; its properties are in DeleteBound |
| MySqlRepository.InsertBound | internal/task/repository/mysql/repository.go:25-38 | the INSERT binds one argument per placeholder |
| MySqlRepository.SelectByIdBound | internal/task/repository/mysql/repository.go:52-58 | the GetByID SELECT binds one argument per placeholder, the id last |
| MySqlRepository.DeleteBound | internal/task/repository/mysql/repository.go:173-175 | the DELETE binds one argument per placeholder, the id last |
| MySqlRepository.CreateReadsBack | internal/task/repository/mysql/repository.go:30-48 | scanTask of the row `InsertedRow` assumes the INSERT stores gives back every written field; a due date normalised by the service comes back identical |
| MySqlRepository.Assignments | internal/task/repository/mysql/repository.go:122-147 | definition of the SET clauses; its properties are in AssignmentsOrdered, AssignmentsCount, AssignmentsExact and AssignmentsAllFields |
| MySqlRepository.AssignmentsOrdered | internal/task/repository/mysql/repository.go:125-147 | SET clauses come in the fixed order title, description, status, priority, `due_at = ?`, `due_at = NULL`, each carrying its field's value |
| MySqlRepository.AssignmentsCount | internal/task/repository/mysql/repository.go:122-147 | the number of SET clauses is the number of supplied fields |
| MySqlRepository.AssignmentsExact | internal/task/repository/mysql/repository.go:125-147 | a field gets a clause if and only if it is supplied |
| MySqlRepository.ClauseWellFormed | internal/task/repository/mysql/repository.go:126-146 | every SET clause has one argument per placeholder (`due_at = NULL` has none) |
| MySqlRepository.AssignmentsAllFields | internal/task/repository/mysql/repository.go:125-147 | with every field supplied, all six clauses come in order, with the due date in UTC |
| MySqlRepository.UpdateStatement | internal/task/repository/mysql/repository.go:153-154 | definition of the UPDATE; its properties are in UpdateBound and UpdateSqlShape |
| MySqlRepository.UpdateBound | internal/task/repository/mysql/repository.go:153-154 | every UPDATE binds one argument per placeholder, with the id last |
| MySqlRepository.UpdateSqlShape | internal/task/repository/mysql/repository.go:153 | the UPDATE text depends only on which fields are supplied, never on their values or on the id |
| MySqlRepository.ValidatedUpdateAssigns | internal/task/repository/mysql/repository.go:141-151 | parameters validated by the service always give a clause, and never set the same column twice |
| MySqlRepository.SetClauses | internal/task/repository/mysql/repository.go:122-147 | the slice-appending loop gives exactly the texts and arguments of `Assignments(params)` |
| MySqlRepository.ListStatement | internal/task/repository/mysql/repository.go:71-97 | definition of the List SELECT; its properties are in ListConditionsParts, ListArgsLayout, ListSqlCases, ListSqlShape and ListBound |
| MySqlRepository.ListConditionsParts | internal/task/repository/mysql/repository.go:80-89 | the status condition comes first, binding the status; the search condition follows, binding `"%"+q+"%"` twice |
| MySqlRepository.ListArgsLayout | internal/task/repository/mysql/repository.go:77-97 | List's argument count, the status first, the two LIKE patterns, and limit and offset as the last two |
| MySqlRepository.ListSqlCases | internal/task/repository/mysql/repository.go:71-96 | the four possible SELECT texts: no WHERE without a condition; status before search, joined by AND |
| MySqlRepository.ListSqlShape | internal/task/repository/mysql/repository.go:71-96 | the SELECT text depends only on which filters are present, never on their values |
| MySqlRepository.ListSqlPlaceholders | internal/task/repository/mysql/repository.go:91-96 | a List SELECT has its conditions' placeholders plus two |
| MySqlRepository.ListBound | internal/task/repository/mysql/repository.go:77-97 | every List SELECT binds one argument per placeholder |
| MySqlRepository.BuildListStatement | internal/task/repository/mysql/repository.go:71-97 | the builder gives exactly `ListStatement(filter)` |
| MySqlRepository.Collect | internal/task/repository/mysql/repository.go:105-118 | definition of what reading the rows returns; its properties are in CollectSpec |
| MySqlRepository.CollectSpec | internal/task/repository/mysql/repository.go:105-118 | reading succeeds if and only if every row scans and the result set ends without error, and then returns every task in order. Otherwise it returns the first scan error or the result set's error |
| MySqlRepository.CollectTasks | internal/task/repository/mysql/repository.go:105-118 | the `rows.Next()` loop returns exactly `Collect(rows)` |
| MySqlRepository.Repository.constructor | internal/task/repository/mysql/repository.go:20-22 | the repository wraps the given handle |
| MySqlRepository.Repository.Create | internal/task/repository/mysql/repository.go:24-49 | sends the INSERT. Exec and LastInsertId errors are returned unchanged with nothing more sent; otherwise it re-reads by `uint64` of the inserted id and returns what GetByID returns |
| MySqlRepository.Repository.GetByID | internal/task/repository/mysql/repository.go:51-68 | sends one SELECT by id and returns `FoundTask` of the reply |
| MySqlRepository.Repository.List | internal/task/repository/mysql/repository.go:70-119 | sends exactly `ListStatement(filter)`; a query error is returned unchanged, and otherwise it returns `Collect` of the result set |
| MySqlRepository.Repository.Update | internal/task/repository/mysql/repository.go:121-170 | with no SET clause, fails on `body` and sends nothing. Otherwise it sends `UpdateStatement(id, Assignments(params))`: errors pass through, zero rows affected is not-found, and success re-reads by the same id |
| MySqlRepository.Repository.Delete | internal/task/repository/mysql/repository.go:172-189 | sends the DELETE; errors pass through, zero rows affected is not-found, and otherwise the result is success |

## Left out

- `context.Context`, cancellation and deadlines: no operation of the model takes a context.
- The SQL server and the driver. An oracle answers `ExecContext`, `QueryRowContext`, `QueryContext`, `LastInsertId`, `RowsAffected`, `Scan` and `rows.Err()` with arbitrary replies. The model therefore proves what the repository sends and how it maps each reply, not what MySQL stores. `InsertedRow` is the one assumption about the server, and only `CreateReadsBack` uses it.
- Concurrency and the write-then-reread race in Create and Update: the model is sequential.
- `defer rows.Close()`: closing a result set has no observable effect in the model.
- Go interfaces: the `Repository` interface, the `Service` interface and `sqlScanner` are not separate types. The service is proved against the recording double, whose replies are arbitrary. The MySQL repository is a separate class over the database oracle.
- MySqlRepository.Repository.List: requires a non-negative limit. Go's `make` panics on a negative capacity at `internal/task/repository/mysql/repository.go:105`, and the service always passes a clamped limit.
- Clock.UTC: time zones are reduced to an offset. Real zone rules and the wall-clock fields are not modelled, and `IsZero` is "the instant is Go's zero time".
- Text.ToLower: lowers A-Z, U+0130 and U+212A only. Go lowers every cased letter, but only strings that lower to a valid status leave `parseStatus`, and for those inputs the two agree.
- Invalid UTF-8: Dafny strings are sequences of Unicode scalar values, so Go strings holding invalid UTF-8 are not modelled.
- Go's `int`: modelled as a 64-bit integer (`Int64`). `uint8` and `uint64` are ranges. The caller's `priority` is an `Int64`, so `uint8(raw)` never truncates once `validatePriority` has accepted it.
- `errors.Is` and `errors.As`: modelled as equality of error values, because no error in the core is wrapped.
- Outside the core: `cmd/`, `internal/config`, the connection setup in `internal/platform/mysql` and the logger.
- The `updated_at >= created_at` invariant: the server maintains those columns, and no code of the core touches them.

## Notes

- Title length: the Go message says `must be at most 255 characters`, but `len(title)` at internal/task/service.go:39 counts UTF-8 bytes, and only after trimming. The model follows the code: `ByteLen` is the UTF-8 byte length, and `TitleLimitCountsBytes` shows 128 two-byte letters being refused.
- Title trimming: a title longer than 255 bytes that trims to 255 bytes or fewer is accepted, as the code does.

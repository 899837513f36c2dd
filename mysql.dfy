/**
 * internal/task/repository/mysql/repository.go: the MySQL implementation of
 * the task repository.
 *
 * The statements it sends are built by specification functions
 * (`InsertStatement`, `SelectById`, `ListStatement`, `UpdateStatement`,
 * `DeleteStatement`) and, where the Go code appends to slices and a
 * strings.Builder, by methods proved equal to them (`SetClauses`,
 * `BuildListStatement`). The lemmas below say that every statement binds
 * one argument per placeholder, that caller text only ever travels as an
 * argument, and how rows read back map onto tasks. `Repository` is the
 * *Repository type over the `Database` oracle.
 *
 * The SQL constants are the Go constants character for character; they are
 * written as concatenations so that each piece can be shown free of `?` on
 * its own.
 */
module MySqlRepository {
  import opened Wrappers
  import opened TaskErrors
  import opened Clock
  import opened Text
  import opened TaskTypes
  import opened TaskService
  import opened Sql

  // ---------------------------------------------------------------- SQL text

  // Each constant is built left to right, one short piece at a time, so that
  // its placeholders can be counted piece by piece. A constant named
  // `<Statement>UpTo<Word>` is the prefix of that statement's text that ends
  // with <Word> (the column, keyword or marker named).

  const SelectUpToTitle := "\n\t\tSELECT id, title, "
  const SelectUpToStatus := SelectUpToTitle + "description, status, "
  const SelectUpToDueAt := SelectUpToStatus + "priority, due_at, "
  const SelectUpToUpdatedAt := SelectUpToDueAt + "created_at, updated_at\n"
  const SelectUpToFrom := SelectUpToUpdatedAt + "\t\tFROM tasks\n"
  /** The SELECT that List starts from. */
  const SelectSql := SelectUpToFrom + "\t"
  const SelectUpToWhereId := SelectUpToFrom + "\t\tWHERE id = "
  /** The SELECT of GetByID. */
  const SelectByIdSql := SelectUpToWhereId + Marker + "\n\t"

  const InsertInto := "\n\t\tINSERT INTO tasks ("
  const InsertUpToDescription := InsertInto + "title, description, "
  const InsertUpToDueAt := InsertUpToDescription + "status, priority, due_at)\n"
  const InsertUpToValues := InsertUpToDueAt + "\t\tVALUES ("
  const ValuesList := "?, ?, ?, ?, ?"
  /** The INSERT of Create. */
  const InsertSql := InsertUpToValues + ValuesList + ")\n\t"

  const DeleteFrom := "DELETE FROM tasks"
  const DeleteUpToWhereId := DeleteFrom + " WHERE id = "
  /** The DELETE of Delete. */
  const DeleteSql := DeleteUpToWhereId + Marker

  const WhereKeyword := " WHERE "
  const AndSeparator := " AND "
  const OrderBy := " ORDER BY created_at"
  const OrderUpToLimit := OrderBy + " DESC LIMIT "
  const OrderUpToOffset := OrderUpToLimit + Marker + " OFFSET "
  /** The ORDER BY, LIMIT and OFFSET that end every SELECT of List. */
  const OrderTail := OrderUpToOffset + Marker
  const StatusColumnIs := "status = "
  const StatusCondition := StatusColumnIs + Marker
  const LikeOpen := "(title LIKE "
  const LikeUpToFirstMarker := LikeOpen + Marker
  const LikeUpToDescription := LikeUpToFirstMarker + " OR description LIKE "
  const QueryCondition := LikeUpToDescription + Marker + ")"

  const UpdateHead := "UPDATE tasks SET "
  const ClauseSeparator := ", "
  const WhereIdIs := " WHERE id = "
  const UpdateTail := WhereIdIs + Marker

  /** `column = ?` */
  function Bind(column: string): string {
    column + " = " + Marker
  }

  /** `column = NULL` */
  function SetNull(column: string): string {
    column + " = NULL"
  }

  // ---------------------------------------------------------------- placeholder counts of the constants

  /** Appending a piece without `?` keeps the count. */
  lemma AppendPlain(a: string, b: string)
    requires '?' !in b
    ensures Placeholders(a + b) == Placeholders(a)
  {
    PlaceholdersNone(b);
    PlaceholdersAppend(a, b);
  }

  /** Appending one `?` and then a piece without `?` adds one. */
  lemma AppendMarker(a: string, b: string)
    requires '?' !in b
    ensures Placeholders(a + Marker + b) == Placeholders(a) + 1
  {
    MarkerPlaceholders();
    PlaceholdersNone(b);
    PlaceholdersOf3(a, Marker, b);
  }

  lemma SelectUpToStatusPlain()
    ensures Placeholders(SelectUpToStatus) == 0
  {
    PlaceholdersNone(SelectUpToStatus);
  }

  lemma SelectUpToDueAtPlain()
    ensures Placeholders(SelectUpToDueAt) == 0
  {
    SelectUpToStatusPlain();
    AppendPlain(SelectUpToStatus, "priority, due_at, ");
  }

  lemma SelectUpToUpdatedAtPlain()
    ensures Placeholders(SelectUpToUpdatedAt) == 0
  {
    SelectUpToDueAtPlain();
    AppendPlain(SelectUpToDueAt, "created_at, updated_at\n");
  }

  lemma SelectUpToFromPlain()
    ensures Placeholders(SelectUpToFrom) == 0
  {
    SelectUpToUpdatedAtPlain();
    AppendPlain(SelectUpToUpdatedAt, "\t\tFROM tasks\n");
  }

  lemma SelectSqlPlaceholders()
    ensures Placeholders(SelectSql) == 0
  {
    SelectUpToFromPlain();
    AppendPlain(SelectUpToFrom, "\t");
  }

  lemma SelectUpToWhereIdPlain()
    ensures Placeholders(SelectUpToWhereId) == 0
  {
    SelectUpToFromPlain();
    AppendPlain(SelectUpToFrom, "\t\tWHERE id = ");
  }

  lemma SelectByIdSqlPlaceholders()
    ensures Placeholders(SelectByIdSql) == 1
  {
    SelectUpToWhereIdPlain();
    AppendMarker(SelectUpToWhereId, "\n\t");
  }

  lemma InsertUpToDescriptionPlain()
    ensures Placeholders(InsertUpToDescription) == 0
  {
    PlaceholdersNone(InsertUpToDescription);
  }

  lemma InsertUpToDueAtPlain()
    ensures Placeholders(InsertUpToDueAt) == 0
  {
    InsertUpToDescriptionPlain();
    AppendPlain(InsertUpToDescription, "status, priority, due_at)\n");
  }

  lemma InsertUpToValuesPlain()
    ensures Placeholders(InsertUpToValues) == 0
  {
    InsertUpToDueAtPlain();
    AppendPlain(InsertUpToDueAt, "\t\tVALUES (");
  }

  lemma ValuesListPlaceholders() ensures Placeholders(ValuesList) == 5 { }

  lemma InsertSqlPlaceholders()
    ensures Placeholders(InsertSql) == 5
  {
    InsertUpToValuesPlain();
    ValuesListPlaceholders();
    PlaceholdersAppend(InsertUpToValues, ValuesList);
    AppendPlain(InsertUpToValues + ValuesList, ")\n\t");
  }

  lemma DeleteUpToWhereIdPlain()
    ensures Placeholders(DeleteUpToWhereId) == 0
  {
    PlaceholdersNone(DeleteUpToWhereId);
  }

  lemma DeleteSqlPlaceholders()
    ensures Placeholders(DeleteSql) == 1
  {
    DeleteUpToWhereIdPlain();
    AppendMarker(DeleteUpToWhereId, "");
    assert DeleteSql == DeleteUpToWhereId + Marker + "";
  }

  lemma OrderUpToLimitPlain()
    ensures Placeholders(OrderUpToLimit) == 0
  {
    PlaceholdersNone(OrderUpToLimit);
  }

  lemma OrderUpToOffsetPlaceholders()
    ensures Placeholders(OrderUpToOffset) == 1
  {
    OrderUpToLimitPlain();
    AppendMarker(OrderUpToLimit, " OFFSET ");
  }

  lemma OrderTailPlaceholders()
    ensures Placeholders(OrderTail) == 2
  {
    OrderUpToOffsetPlaceholders();
    AppendMarker(OrderUpToOffset, "");
    assert OrderTail == OrderUpToOffset + Marker + "";
  }

  lemma StatusColumnIsPlain()
    ensures Placeholders(StatusColumnIs) == 0
  {
    PlaceholdersNone(StatusColumnIs);
  }

  lemma StatusConditionPlaceholders()
    ensures Placeholders(StatusCondition) == 1
  {
    StatusColumnIsPlain();
    AppendMarker(StatusColumnIs, "");
    assert StatusCondition == StatusColumnIs + Marker + "";
  }

  lemma LikeOpenPlain()
    ensures Placeholders(LikeOpen) == 0
  {
    PlaceholdersNone(LikeOpen);
  }

  lemma LikeUpToFirstMarkerPlaceholders()
    ensures Placeholders(LikeUpToFirstMarker) == 1
  {
    LikeOpenPlain();
    AppendMarker(LikeOpen, "");
    assert LikeUpToFirstMarker == LikeOpen + Marker + "";
  }

  lemma LikeUpToDescriptionPlaceholders()
    ensures Placeholders(LikeUpToDescription) == 1
  {
    LikeUpToFirstMarkerPlaceholders();
    AppendPlain(LikeUpToFirstMarker, " OR description LIKE ");
  }

  lemma QueryConditionPlaceholders()
    ensures Placeholders(QueryCondition) == 2
  {
    LikeUpToDescriptionPlaceholders();
    AppendMarker(LikeUpToDescription, ")");
  }

  lemma UpdateHeadPlain()
    ensures Placeholders(UpdateHead) == 0
  {
    PlaceholdersNone(UpdateHead);
  }

  lemma WhereIdIsPlain()
    ensures Placeholders(WhereIdIs) == 0
  {
    PlaceholdersNone(WhereIdIs);
  }

  lemma UpdateTailPlaceholders()
    ensures Placeholders(UpdateTail) == 1
  {
    WhereIdIsPlain();
    AppendMarker(WhereIdIs, "");
    assert UpdateTail == WhereIdIs + Marker + "";
  }

  /** A column name without a `?` gives a `column = ?` clause with one placeholder. */
  lemma BindPlaceholders(column: string)
    requires '?' !in column
    ensures Placeholders(Bind(column)) == 1
  {
    PlaceholdersNone(column);
    MarkerPlaceholders();
    PlaceholdersOf3(column, " = ", Marker);
  }

  /** A `column = NULL` clause has no placeholder. */
  lemma SetNullPlaceholders(column: string)
    requires '?' !in column
    ensures Placeholders(SetNull(column)) == 0
  {
    PlaceholdersNone(column);
    PlaceholdersAppend(column, " = NULL");
  }

  // ---------------------------------------------------------------- values in and out

  /** asNullableTime: nil becomes SQL NULL, a time is sent as its UTC form. */
  function AsNullableTime(value: Option<Time>): (v: SqlValue)
    ensures value.None? <==> v == SqlNull
    ensures value.Some? ==> v.SqlTime? && Equal(v.time, value.value) && IsUtc(v.time)
  {
    if value.None? then SqlNull else SqlTime(UTC(value.value))
  }

  /** How scanTask fills a task from a row it scanned. */
  predicate Scanned(row: Row, t: Task) {
    && t.id == row.id && t.title == row.title && t.status == row.status && t.priority == row.priority
    && (row.description.None? ==> t.description == "")
    && (row.description.Some? ==> t.description == row.description.value)
    && (row.dueAt.None? <==> t.dueAt.None?)
    && (row.dueAt.Some? ==> Equal(t.dueAt.value, row.dueAt.value) && IsUtc(t.dueAt.value))
    && Equal(t.createdAt, row.createdAt) && IsUtc(t.createdAt)
    && Equal(t.updatedAt, row.updatedAt) && IsUtc(t.updatedAt)
  }

  /**
   * scanTask: a Scan error is returned unchanged; otherwise NULL columns
   * become "" and nil, and every timestamp is moved to UTC.
   */
  function ScanTask(scan: Result<Row>): (r: Result<Task>)
    ensures scan.Err? ==> r == Err(scan.error)
    ensures scan.Ok? ==> r.Ok? && Scanned(scan.value, r.value)
  {
    match scan
    case Err(e) => Err(e)
    case Ok(row) =>
      Ok(Task(
        row.id, row.title,
        if row.description.Some? then row.description.value else "",
        row.status, row.priority,
        if row.dueAt.Some? then Some(UTC(row.dueAt.value)) else None,
        UTC(row.createdAt), UTC(row.updatedAt)))
  }

  /** Scanning a row whose timestamps are already UTC changes nothing but NULLs. */
  lemma ScanKeepsUtcRow(row: Row)
    requires IsUtc(row.createdAt) && IsUtc(row.updatedAt)
    requires row.dueAt.Some? ==> IsUtc(row.dueAt.value)
    ensures ScanTask(Ok(row)).value.dueAt == row.dueAt
    ensures ScanTask(Ok(row)).value.createdAt == row.createdAt
    ensures ScanTask(Ok(row)).value.updatedAt == row.updatedAt
  {
  }

  /** The result of GetByID for what QueryRow and Scan gave back. */
  function FoundTask(scan: Result<Row>): (r: Result<Task>)
    ensures r != Err(NoRows)
    ensures scan.Err? && scan.error == NoRows ==> r == Err(TaskNotFound)
    ensures scan.Err? && scan.error != NoRows ==> r == Err(scan.error)
    ensures scan.Ok? ==> r.Ok? && Scanned(scan.value, r.value)
  {
    match ScanTask(scan)
    case Err(NoRows) => Err(TaskNotFound)
    case other => other
  }

  /** GetByID reports a missing task exactly when the row was missing (or the store said so itself). */
  lemma FoundTaskNotFound(scan: Result<Row>)
    ensures FoundTask(scan) == Err(TaskNotFound) <==> scan.Err? && (scan.error == NoRows || scan.error == TaskNotFound)
  {
  }

  /** Go's uint64(int64) conversion: two's complement, so negative ids wrap. */
  function ToUint64(n: Int64): (u: Uint64)
    ensures n >= 0 ==> u == n
    ensures n < 0 ==> u == n + 0x1_0000_0000_0000_0000
  {
    n % 0x1_0000_0000_0000_0000
  }

  // ---------------------------------------------------------------- Create, GetByID, Delete statements

  function InsertStatement(p: CreateParams): Statement {
    Statement(InsertSql, [SqlText(p.title), SqlText(p.description), SqlText(p.status),
                          SqlInt(p.priority), AsNullableTime(p.dueAt)])
  }

  function SelectById(id: Uint64): Statement {
    Statement(SelectByIdSql, [SqlInt(id)])
  }

  function DeleteStatement(id: Uint64): Statement {
    Statement(DeleteSql, [SqlInt(id)])
  }

  lemma InsertBound(p: CreateParams)
    ensures Bound(InsertStatement(p))
  {
    InsertSqlPlaceholders();
  }

  lemma SelectByIdBound(id: Uint64)
    ensures Bound(SelectById(id))
    ensures SelectById(id).args[|SelectById(id).args| - 1] == SqlInt(id)
  {
    SelectByIdSqlPlaceholders();
  }

  lemma DeleteBound(id: Uint64)
    ensures Bound(DeleteStatement(id))
    ensures DeleteStatement(id).args[|DeleteStatement(id).args| - 1] == SqlInt(id)
  {
    DeleteSqlPlaceholders();
  }

  /**
   * The row MySQL stores for an INSERT of the Create statement: the five
   * arguments go, in order, into title, description, status, priority and
   * due_at; the id and both timestamps are the server's. None when the
   * arguments do not fit the columns.
   */
  function InsertedRow(st: Statement, id: Uint64, createdAt: Time, updatedAt: Time): Option<Row> {
    if |st.args| == 5 && st.args[0].SqlText? && st.args[1].SqlText? && st.args[2].SqlText?
       && st.args[3].SqlInt? && 0 <= st.args[3].n < 0x100 && (st.args[4].SqlNull? || st.args[4].SqlTime?)
    then
      Some(Row(id, st.args[0].text, Some(st.args[1].text), st.args[2].text, st.args[3].n,
               if st.args[4].SqlTime? then Some(st.args[4].time) else None, createdAt, updatedAt))
    else None
  }

  /**
   * What Create writes is what GetByID reads back: every field of the
   * parameters survives the round trip, and a due date the service has
   * normalised comes back identical.
   */
  lemma CreateReadsBack(p: CreateParams, id: Uint64, createdAt: Time, updatedAt: Time)
    ensures InsertedRow(InsertStatement(p), id, createdAt, updatedAt).Some?
    ensures
      var t := ScanTask(Ok(InsertedRow(InsertStatement(p), id, createdAt, updatedAt).value)).value;
      && t.id == id && t.title == p.title && t.description == p.description
      && t.status == p.status && t.priority == p.priority
      && (t.dueAt.Some? <==> p.dueAt.Some?)
      && (p.dueAt.Some? ==> Equal(t.dueAt.value, p.dueAt.value))
      && (ValidDueAt(p.dueAt) ==> t.dueAt == p.dueAt)
  {
    var row := InsertedRow(InsertStatement(p), id, createdAt, updatedAt).value;
    if p.dueAt.Some? {
      assert row.dueAt == Some(UTC(p.dueAt.value));
    }
  }

  // ---------------------------------------------------------------- Update statement

  datatype Column = TitleColumn | DescriptionColumn | StatusColumn | PriorityColumn | DueAtColumn

  function ColumnName(c: Column): string {
    match c
    case TitleColumn => "title"
    case DescriptionColumn => "description"
    case StatusColumn => "status"
    case PriorityColumn => "priority"
    case DueAtColumn => "due_at"
  }

  lemma ColumnNamePlain(c: Column)
    ensures '?' !in ColumnName(c)
  {
  }

  /** One SET clause of an UPDATE: `column = ?` with its argument, or `column = NULL`. */
  datatype SetClause = Assign(column: Column, value: SqlValue) | AssignNull(column: Column)

  function ClauseFragment(s: SetClause): Fragment {
    match s
    case Assign(c, v) => Fragment(Bind(ColumnName(c)), [v])
    case AssignNull(c) => Fragment(SetNull(ColumnName(c)), [])
  }

  function Fragments(cs: seq<SetClause>): (fs: seq<Fragment>)
    ensures |fs| == |cs|
    ensures forall i :: 0 <= i < |cs| ==> fs[i] == ClauseFragment(cs[i])
  {
    seq(|cs|, i requires 0 <= i < |cs| => ClauseFragment(cs[i]))
  }

  /** The position of a clause in the fixed order of Update. */
  function Rank(s: SetClause): nat {
    match s
    case AssignNull(_) => 5
    case Assign(c, _) =>
      match c
      case TitleColumn => 0
      case DescriptionColumn => 1
      case StatusColumn => 2
      case PriorityColumn => 3
      case DueAtColumn => 4
  }

  /** Whether the update supplies the field that has place k in the order. */
  predicate Supplied(p: UpdateParams, k: nat) {
    if k == 0 then p.title.Some?
    else if k == 1 then p.description.Some?
    else if k == 2 then p.status.Some?
    else if k == 3 then p.priority.Some?
    else if k == 4 then p.dueAt.Some?
    else k == 5 && p.clearDueAt
  }

  /** The clause for the field at place k, with the value it binds. */
  function ClauseAt(p: UpdateParams, k: nat): (s: SetClause)
    requires Supplied(p, k)
    ensures Rank(s) == k
  {
    if k == 0 then Assign(TitleColumn, SqlText(p.title.value))
    else if k == 1 then Assign(DescriptionColumn, SqlText(p.description.value))
    else if k == 2 then Assign(StatusColumn, SqlText(p.status.value))
    else if k == 3 then Assign(PriorityColumn, SqlInt(p.priority.value))
    else if k == 4 then Assign(DueAtColumn, SqlTime(UTC(p.dueAt.value)))
    else AssignNull(DueAtColumn)
  }

  /** The clause for place k, if its field is supplied. */
  function Opt(p: UpdateParams, k: nat): seq<SetClause> {
    if Supplied(p, k) then [ClauseAt(p, k)] else []
  }

  /** The clauses for the supplied fields among the first k places, as Update appends them. */
  function AssignUpTo(p: UpdateParams, k: nat): seq<SetClause> {
    if k == 0 then [] else AssignUpTo(p, k - 1) + Opt(p, k - 1)
  }

  /** The number of supplied fields among the first k places. */
  function SuppliedUpTo(p: UpdateParams, k: nat): nat {
    if k == 0 then 0 else SuppliedUpTo(p, k - 1) + (if Supplied(p, k - 1) then 1 else 0)
  }

  /**
   * The SET clauses Update emits: one per supplied field, in the fixed order
   * title, description, status, priority, `due_at = ?`, `due_at = NULL`,
   * each with the value it binds.
   */
  function Assignments(p: UpdateParams): seq<SetClause> {
    AssignUpTo(p, 6)
  }

  predicate SameShape(p: UpdateParams, q: UpdateParams) {
    forall k :: 0 <= k < 6 ==> Supplied(p, k) == Supplied(q, k)
  }

  lemma {:induction false} AssignUpToLength(p: UpdateParams, k: nat)
    ensures |AssignUpTo(p, k)| == SuppliedUpTo(p, k)
  {
    if k > 0 {
      AssignUpToLength(p, k - 1);
    }
  }

  /** Each clause among the first k places sits at a supplied place below k and carries that field's value. */
  lemma {:induction false} AssignUpToValues(p: UpdateParams, k: nat)
    ensures forall c :: c in AssignUpTo(p, k) ==> Rank(c) < k && Supplied(p, Rank(c)) && c == ClauseAt(p, Rank(c))
  {
    if k > 0 {
      AssignUpToValues(p, k - 1);
    }
  }

  /** Among the first k places, the places of the clauses strictly increase. */
  lemma {:induction false} AssignUpToSorted(p: UpdateParams, k: nat)
    ensures forall i, j :: 0 <= i < j < |AssignUpTo(p, k)| ==> Rank(AssignUpTo(p, k)[i]) < Rank(AssignUpTo(p, k)[j])
  {
    if k > 0 {
      AssignUpToSorted(p, k - 1);
      AssignUpToValues(p, k - 1);
      var prefix := AssignUpTo(p, k - 1);
      assert forall i :: 0 <= i < |prefix| ==> prefix[i] in prefix;
    }
  }

  /** Among the first k places, every supplied field has its clause. */
  lemma {:induction false} AssignUpToComplete(p: UpdateParams, k: nat)
    ensures forall j :: 0 <= j < k && Supplied(p, j) ==> ClauseAt(p, j) in AssignUpTo(p, k)
  {
    if k > 0 {
      AssignUpToComplete(p, k - 1);
    }
  }

  /** Update's clauses are ordered by their place and each carries the value of its field. */
  lemma AssignmentsOrdered(p: UpdateParams)
    ensures var cs := Assignments(p);
      && (forall i, j :: 0 <= i < j < |cs| ==> Rank(cs[i]) < Rank(cs[j]))
      && (forall c :: c in cs ==> Supplied(p, Rank(c)) && c == ClauseAt(p, Rank(c)))
  {
    AssignUpToSorted(p, 6);
    AssignUpToValues(p, 6);
  }

  /** The update sets exactly FieldCount fields. */
  lemma AssignmentsCount(p: UpdateParams)
    ensures |Assignments(p)| == FieldCount(p)
  {
    AssignUpToLength(p, 6);
    assert SuppliedUpTo(p, 6) == FieldCount(p) by {
      assert SuppliedUpTo(p, 1) == if p.title.Some? then 1 else 0;
      assert SuppliedUpTo(p, 2) == SuppliedUpTo(p, 1) + if p.description.Some? then 1 else 0;
      assert SuppliedUpTo(p, 3) == SuppliedUpTo(p, 2) + if p.status.Some? then 1 else 0;
      assert SuppliedUpTo(p, 4) == SuppliedUpTo(p, 3) + if p.priority.Some? then 1 else 0;
      assert SuppliedUpTo(p, 5) == SuppliedUpTo(p, 4) + if p.dueAt.Some? then 1 else 0;
    }
  }

  /** A field gets a clause exactly when it is supplied. */
  lemma AssignmentsExact(p: UpdateParams, j: nat)
    requires j < 6
    ensures Supplied(p, j) ==> ClauseAt(p, j) in Assignments(p)
    ensures (exists c :: c in Assignments(p) && Rank(c) == j) ==> Supplied(p, j)
  {
    AssignUpToComplete(p, 6);
    AssignUpToValues(p, 6);
  }

  /** Every SET clause binds as many arguments as it has placeholders. */
  lemma ClauseWellFormed(s: SetClause)
    ensures WellFormed(ClauseFragment(s))
  {
    ColumnNamePlain(s.column);
    if s.Assign? {
      BindPlaceholders(ColumnName(s.column));
    } else {
      SetNullPlaceholders(ColumnName(s.column));
    }
  }

  /** A clause's text is fixed by its place in the order: the bound value never enters it. */
  lemma ClauseTextByRank(s: SetClause, t: SetClause)
    requires Rank(s) == Rank(t) && (s.AssignNull? ==> s.column == DueAtColumn) && (t.AssignNull? ==> t.column == DueAtColumn)
    ensures ClauseFragment(s).text == ClauseFragment(t).text
  {
  }

  /** With every field supplied, all six clauses come, in order, with their arguments. */
  lemma AssignmentsAllFields(p: UpdateParams)
    requires p.title.Some? && p.description.Some? && p.status.Some? && p.priority.Some?
    requires p.dueAt.Some? && p.clearDueAt
    ensures Assignments(p)
         == [Assign(TitleColumn, SqlText(p.title.value)), Assign(DescriptionColumn, SqlText(p.description.value)),
             Assign(StatusColumn, SqlText(p.status.value)), Assign(PriorityColumn, SqlInt(p.priority.value)),
             Assign(DueAtColumn, SqlTime(UTC(p.dueAt.value))), AssignNull(DueAtColumn)]
  {
    assert AssignUpTo(p, 1) == [ClauseAt(p, 0)];
    assert AssignUpTo(p, 2) == AssignUpTo(p, 1) + [ClauseAt(p, 1)];
    assert AssignUpTo(p, 3) == AssignUpTo(p, 2) + [ClauseAt(p, 2)];
    assert AssignUpTo(p, 4) == AssignUpTo(p, 3) + [ClauseAt(p, 3)];
    assert AssignUpTo(p, 5) == AssignUpTo(p, 4) + [ClauseAt(p, 4)];
  }

  /** The UPDATE for a list of SET clauses, with the id bound last. */
  function UpdateStatement(id: Uint64, clauses: seq<SetClause>): Statement {
    var fs := Fragments(clauses);
    Statement(UpdateHead + Join(Texts(fs), ClauseSeparator) + UpdateTail, Args(fs) + [SqlInt(id)])
  }

  /** One argument per placeholder in every UPDATE, the id last. */
  lemma UpdateBound(id: Uint64, cs: seq<SetClause>)
    ensures Bound(UpdateStatement(id, cs))
    ensures var st := UpdateStatement(id, cs); st.args[|st.args| - 1] == SqlInt(id)
  {
    var fs := Fragments(cs);
    forall i | 0 <= i < |fs| ensures WellFormed(fs[i]) {
      ClauseWellFormed(cs[i]);
    }
    PlaceholdersNone(ClauseSeparator);
    JoinPlaceholders(fs, ClauseSeparator);
    UpdateHeadPlain();
    UpdateTailPlaceholders();
    PlaceholdersOf3(UpdateHead, Join(Texts(fs), ClauseSeparator), UpdateTail);
  }

  /** Caller values never reach the UPDATE text: it is fixed by the shape of the update alone. */
  lemma UpdateSqlShape(id: Uint64, p: UpdateParams, id': Uint64, q: UpdateParams)
    requires SameShape(p, q)
    ensures UpdateStatement(id, Assignments(p)).sql == UpdateStatement(id', Assignments(q)).sql
  {
    UpToTexts(p, 6);
    UpToTexts(q, 6);
    TextsUpToShape(p, q, 6);
  }

  /**
   * Parameters the service has validated always give at least one SET
   * clause, and never both `due_at = ?` and `due_at = NULL`.
   */
  lemma ValidatedUpdateAssigns(p: UpdateParams)
    requires ValidUpdateParams(p)
    ensures Assignments(p) != []
    ensures forall i, j :: 0 <= i < j < |Assignments(p)| ==> Assignments(p)[i].column != Assignments(p)[j].column
  {
    AssignmentsCount(p);
    AssignmentsOrdered(p);
    var cs := Assignments(p);
    forall i, j | 0 <= i < j < |cs| ensures cs[i].column != cs[j].column {
      assert cs[i] in cs && cs[j] in cs;
    }
  }

  /** The clause texts among the first k places, as SetClauses builds them. */
  ghost function TextsUpTo(p: UpdateParams, k: nat): seq<string> {
    if k == 0 then [] else TextsUpTo(p, k - 1) + (if Supplied(p, k - 1) then [ClauseFragment(ClauseAt(p, k - 1)).text] else [])
  }

  /** The bound values among the first k places, as SetClauses builds them. */
  ghost function ArgsUpTo(p: UpdateParams, k: nat): seq<SqlValue> {
    if k == 0 then [] else ArgsUpTo(p, k - 1) + (if Supplied(p, k - 1) then ClauseFragment(ClauseAt(p, k - 1)).args else [])
  }

  /** One step of SetClauses: the clause for place k, if supplied, extends the texts and the values so far. */
  lemma UpToNext(p: UpdateParams, k: nat, setClauses: seq<string>, args: seq<SqlValue>)
    requires k < 6
    requires setClauses == TextsUpTo(p, k) && args == ArgsUpTo(p, k)
    ensures Supplied(p, k) ==>
      setClauses + [ClauseFragment(ClauseAt(p, k)).text] == TextsUpTo(p, k + 1)
      && args + ClauseFragment(ClauseAt(p, k)).args == ArgsUpTo(p, k + 1)
    ensures !Supplied(p, k) ==> setClauses == TextsUpTo(p, k + 1) && args == ArgsUpTo(p, k + 1)
    ensures k == 5 ==> args == ArgsUpTo(p, k + 1)
  {
    if !Supplied(p, k) {
      assert TextsUpTo(p, k + 1) == TextsUpTo(p, k) + [];
      assert ArgsUpTo(p, k + 1) == ArgsUpTo(p, k) + [];
    }
  }

  lemma {:induction false} UpToTexts(p: UpdateParams, k: nat)
    ensures TextsUpTo(p, k) == Texts(Fragments(AssignUpTo(p, k)))
  {
    if k > 0 {
      UpToTexts(p, k - 1);
      if Supplied(p, k - 1) {
        assert AssignUpTo(p, k) == AssignUpTo(p, k - 1) + [ClauseAt(p, k - 1)];
        assert TextsUpTo(p, k) == TextsUpTo(p, k - 1) + [ClauseFragment(ClauseAt(p, k - 1)).text];
        ClauseTextsAppended(AssignUpTo(p, k - 1), ClauseAt(p, k - 1));
      } else {
        assert AssignUpTo(p, k) == AssignUpTo(p, k - 1);
      }
    }
  }

  lemma {:induction false} UpToArgs(p: UpdateParams, k: nat)
    ensures ArgsUpTo(p, k) == Args(Fragments(AssignUpTo(p, k)))
  {
    if k > 0 {
      UpToArgs(p, k - 1);
      if Supplied(p, k - 1) {
        assert AssignUpTo(p, k) == AssignUpTo(p, k - 1) + [ClauseAt(p, k - 1)];
        ClauseArgsAppended(AssignUpTo(p, k - 1), ClauseAt(p, k - 1));
      } else {
        assert AssignUpTo(p, k) == AssignUpTo(p, k - 1);
      }
    }
  }

  /** Updates of the same shape give the same clause texts among the first k places. */
  lemma {:induction false} TextsUpToShape(p: UpdateParams, q: UpdateParams, k: nat)
    requires SameShape(p, q)
    ensures TextsUpTo(p, k) == TextsUpTo(q, k)
  {
    if k > 0 {
      TextsUpToShape(p, q, k - 1);
      if k - 1 < 6 && Supplied(p, k - 1) {
        ClauseTextByRank(ClauseAt(p, k - 1), ClauseAt(q, k - 1));
      }
    }
  }

  /**
   * The Go slice builder of Update: appends a clause and its argument for
   * each supplied field, in source order.
   */
  method SetClauses(p: UpdateParams) returns (setClauses: seq<string>, args: seq<SqlValue>)
    ensures setClauses == Texts(Fragments(Assignments(p)))
    ensures args == Args(Fragments(Assignments(p)))
  {
    setClauses, args := [], [];
    ghost var place: nat := 0;
    UpToNext(p, place, setClauses, args);
    if p.title.Some? {
      setClauses, args := setClauses + [Bind(ColumnName(TitleColumn))], args + [SqlText(p.title.value)];
    }
    assert setClauses == TextsUpTo(p, place + 1) && args == ArgsUpTo(p, place + 1);
    place := place + 1;
    UpToNext(p, place, setClauses, args);
    if p.description.Some? {
      setClauses, args := setClauses + [Bind(ColumnName(DescriptionColumn))], args + [SqlText(p.description.value)];
    }
    assert setClauses == TextsUpTo(p, place + 1) && args == ArgsUpTo(p, place + 1);
    place := place + 1;
    UpToNext(p, place, setClauses, args);
    if p.status.Some? {
      setClauses, args := setClauses + [Bind(ColumnName(StatusColumn))], args + [SqlText(p.status.value)];
    }
    assert setClauses == TextsUpTo(p, place + 1) && args == ArgsUpTo(p, place + 1);
    place := place + 1;
    UpToNext(p, place, setClauses, args);
    if p.priority.Some? {
      setClauses, args := setClauses + [Bind(ColumnName(PriorityColumn))], args + [SqlInt(p.priority.value)];
    }
    assert setClauses == TextsUpTo(p, place + 1) && args == ArgsUpTo(p, place + 1);
    place := place + 1;
    UpToNext(p, place, setClauses, args);
    if p.dueAt.Some? {
      setClauses, args := setClauses + [Bind(ColumnName(DueAtColumn))], args + [SqlTime(UTC(p.dueAt.value))];
    }
    assert setClauses == TextsUpTo(p, place + 1) && args == ArgsUpTo(p, place + 1);
    place := place + 1;
    UpToNext(p, place, setClauses, args);
    if p.clearDueAt {
      setClauses := setClauses + [SetNull(ColumnName(DueAtColumn))];
    }
    assert setClauses == TextsUpTo(p, 6) && args == ArgsUpTo(p, 6);
    AssignmentsUpTo(p);
  }

  lemma AssignmentsUpTo(p: UpdateParams)
    ensures TextsUpTo(p, 6) == Texts(Fragments(Assignments(p)))
    ensures ArgsUpTo(p, 6) == Args(Fragments(Assignments(p)))
  {
    UpToTexts(p, 6);
    UpToArgs(p, 6);
  }

  /** Appending a clause appends its text. */
  lemma ClauseTextsAppended(cs: seq<SetClause>, c: SetClause)
    ensures Texts(Fragments(cs + [c])) == Texts(Fragments(cs)) + [ClauseFragment(c).text]
  {
    assert Fragments(cs + [c]) == Fragments(cs) + [ClauseFragment(c)];
    FragmentsAppended(Fragments(cs), ClauseFragment(c));
  }

  /** Appending a clause appends its arguments. */
  lemma ClauseArgsAppended(cs: seq<SetClause>, c: SetClause)
    ensures Args(Fragments(cs + [c])) == Args(Fragments(cs)) + ClauseFragment(c).args
  {
    assert Fragments(cs + [c]) == Fragments(cs) + [ClauseFragment(c)];
    FragmentsAppended(Fragments(cs), ClauseFragment(c));
  }

  // ---------------------------------------------------------------- List statement

  /** The LIKE pattern List binds for a search text. */
  function LikePattern(q: string): string {
    "%" + q + "%"
  }

  function StatusFragments(f: ListFilter): seq<Fragment> {
    if f.status.Some? then [Fragment(StatusCondition, [SqlText(f.status.value)])] else []
  }

  function QueryFragments(f: ListFilter): seq<Fragment> {
    if f.query != "" then [Fragment(QueryCondition, [SqlText(LikePattern(f.query)), SqlText(LikePattern(f.query))])] else []
  }

  /** The WHERE conditions of List: status first, then the text search. */
  function ListConditions(f: ListFilter): seq<Fragment> {
    StatusFragments(f) + QueryFragments(f)
  }

  /** The SELECT text, written piece by piece as List writes it. */
  function ListSql(conditions: seq<string>): string {
    if conditions == [] then SelectSql + OrderTail
    else SelectSql + WhereKeyword + Join(conditions, AndSeparator) + OrderTail
  }

  function ListStatement(f: ListFilter): Statement {
    var cs := ListConditions(f);
    Statement(ListSql(Texts(cs)), Args(cs) + [SqlInt(f.limit), SqlInt(f.offset)])
  }

  lemma ArgsOne(x: Fragment)
    ensures Args([x]) == x.args
  {
    assert Args([x]) == x.args + Args([]);
  }

  /** The texts and the arguments of the conditions, part by part. */
  lemma ListConditionsParts(f: ListFilter)
    ensures Texts(ListConditions(f)) == Texts(StatusFragments(f)) + Texts(QueryFragments(f))
    ensures Args(ListConditions(f)) == Args(StatusFragments(f)) + Args(QueryFragments(f))
    ensures Args(StatusFragments(f)) == if f.status.Some? then [SqlText(f.status.value)] else []
    ensures Args(QueryFragments(f)) == if f.query != "" then [SqlText(LikePattern(f.query)), SqlText(LikePattern(f.query))] else []
  {
    TextsAppend(StatusFragments(f), QueryFragments(f));
    ArgsAppend(StatusFragments(f), QueryFragments(f));
    if f.status.Some? { ArgsOne(StatusFragments(f)[0]); }
    if f.query != "" { ArgsOne(QueryFragments(f)[0]); }
  }

  /** Where each caller value goes among List's arguments. */
  lemma ListArgsLayout(f: ListFilter)
    ensures var a := ListStatement(f).args;
      && |a| == 2 + (if f.status.Some? then 1 else 0) + (if f.query != "" then 2 else 0)
      && a[|a| - 2..] == [SqlInt(f.limit), SqlInt(f.offset)]
      && (f.status.Some? ==> a[0] == SqlText(f.status.value))
      && (f.query != "" ==> a[|a| - 4..|a| - 2] == [SqlText(LikePattern(f.query)), SqlText(LikePattern(f.query))])
  {
    ListConditionsParts(f);
  }

  /** The four texts List can send: no WHERE without a condition, status before search, joined by AND. */
  lemma ListSqlCases(f: ListFilter)
    ensures f.status.None? && f.query == "" ==> ListStatement(f).sql == SelectSql + OrderTail
    ensures f.status.Some? && f.query == "" ==> ListStatement(f).sql == SelectSql + WhereKeyword + StatusCondition + OrderTail
    ensures f.status.None? && f.query != "" ==> ListStatement(f).sql == SelectSql + WhereKeyword + QueryCondition + OrderTail
    ensures f.status.Some? && f.query != "" ==>
      ListStatement(f).sql == SelectSql + WhereKeyword + (StatusCondition + AndSeparator + QueryCondition) + OrderTail
  {
    ListConditionsParts(f);
    var ts := Texts(ListConditions(f));
    if f.status.Some? && f.query != "" {
      assert ts == [StatusCondition, QueryCondition];
      JoinTwo(StatusCondition, QueryCondition, AndSeparator);
    } else if f.status.Some? {
      assert ts == [StatusCondition];
      JoinOne(StatusCondition, AndSeparator);
    } else if f.query != "" {
      assert ts == [QueryCondition];
      JoinOne(QueryCondition, AndSeparator);
    }
  }

  /** Caller values never reach the SELECT text: it is fixed by which filters are present. */
  lemma ListSqlShape(f: ListFilter, g: ListFilter)
    requires f.status.Some? == g.status.Some? && (f.query == "") == (g.query == "")
    ensures ListStatement(f).sql == ListStatement(g).sql
  {
    ListConditionsParts(f);
    ListConditionsParts(g);
    assert Texts(StatusFragments(f)) == Texts(StatusFragments(g));
    assert Texts(QueryFragments(f)) == Texts(QueryFragments(g));
  }

  /** A SELECT of List has the placeholders of its conditions and two more, for LIMIT and OFFSET. */
  lemma ListSqlPlaceholders(cs: seq<Fragment>)
    requires forall i :: 0 <= i < |cs| ==> WellFormed(cs[i])
    ensures Placeholders(ListSql(Texts(cs))) == |Args(cs)| + 2
  {
    SelectSqlPlaceholders();
    OrderTailPlaceholders();
    if cs == [] {
      PlaceholdersAppend(SelectSql, OrderTail);
    } else {
      PlaceholdersNone(WhereKeyword);
      PlaceholdersNone(AndSeparator);
      JoinPlaceholders(cs, AndSeparator);
      PlaceholdersAppend(SelectSql, WhereKeyword);
      PlaceholdersOf3(SelectSql + WhereKeyword, Join(Texts(cs), AndSeparator), OrderTail);
    }
  }

  /** One argument per placeholder in every SELECT of List. */
  lemma ListBound(f: ListFilter)
    ensures Bound(ListStatement(f))
  {
    var cs := ListConditions(f);
    StatusConditionPlaceholders();
    QueryConditionPlaceholders();
    assert forall i :: 0 <= i < |cs| ==> WellFormed(cs[i]);
    ListSqlPlaceholders(cs);
  }

  /**
   * The Go builder of List: conditions and arguments appended to slices,
   * the text written piece by piece into a strings.Builder.
   */
  method BuildListStatement(f: ListFilter) returns (st: Statement)
    ensures st == ListStatement(f)
  {
    var args: seq<SqlValue> := [];
    var conditions: seq<string> := [];
    var query := SelectSql;
    if f.status.Some? {
      conditions := conditions + [StatusCondition];
      args := args + [SqlText(f.status.value)];
    }
    if f.query != "" {
      conditions := conditions + [QueryCondition];
      var likeExpr := LikePattern(f.query);
      args := args + [SqlText(likeExpr), SqlText(likeExpr)];
    }
    ListConditionsParts(f);
    assert conditions == Texts(ListConditions(f));
    if |conditions| > 0 {
      query := query + WhereKeyword;
      query := query + Join(conditions, AndSeparator);
    }
    query := query + OrderTail;
    args := args + [SqlInt(f.limit), SqlInt(f.offset)];
    st := Statement(query, args);
  }

  /** Appending a fragment appends its text and its arguments. */
  lemma FragmentsAppended(fs: seq<Fragment>, f: Fragment)
    ensures Texts(fs + [f]) == Texts(fs) + [f.text]
    ensures Args(fs + [f]) == Args(fs) + f.args
  {
    ArgsAppend(fs, [f]);
    assert Args([f]) == f.args + Args([]);
  }

  // ---------------------------------------------------------------- reading rows

  /** What List returns for a result set it has queried. */
  function Collect(scans: seq<Result<Row>>, err: Option<Error>): Result<seq<Task>> {
    if scans == [] then (if err.Some? then Err(err.value) else Ok([]))
    else
      match ScanTask(scans[0])
      case Err(e) => Err(e)
      case Ok(t) => Prepend([t], Collect(scans[1..], err))
  }

  function Prepend(ts: seq<Task>, r: Result<seq<Task>>): Result<seq<Task>> {
    if r.Ok? then Ok(ts + r.value) else r
  }

  /**
   * Collect succeeds exactly when every row scans and the result set ends
   * without error, and then returns every scanned task in order; otherwise
   * it returns the first scan error, or the result set's own error.
   */
  lemma {:induction false} CollectSpec(scans: seq<Result<Row>>, err: Option<Error>)
    ensures Collect(scans, err).Ok? <==> (forall i :: 0 <= i < |scans| ==> ScanTask(scans[i]).Ok?) && err.None?
    ensures Collect(scans, err).Ok? ==>
      |Collect(scans, err).value| == |scans|
      && forall i :: 0 <= i < |scans| ==> ScanTask(scans[i]) == Ok(Collect(scans, err).value[i])
    ensures Collect(scans, err).Err? ==>
      (exists k :: 0 <= k < |scans| && ScanTask(scans[k]) == Err(Collect(scans, err).error)
                   && forall i :: 0 <= i < k ==> ScanTask(scans[i]).Ok?)
      || ((forall i :: 0 <= i < |scans| ==> ScanTask(scans[i]).Ok?) && err == Some(Collect(scans, err).error))
  {
    if scans != [] {
      CollectSpec(scans[1..], err);
      assert forall i :: 1 <= i < |scans| ==> scans[i] == scans[1..][i - 1];
      var r := Collect(scans, err);
      if ScanTask(scans[0]).Ok? && r.Err? {
        var rest := Collect(scans[1..], err);
        if exists k :: 0 <= k < |scans[1..]| && ScanTask(scans[1..][k]) == Err(rest.error)
                        && forall i :: 0 <= i < k ==> ScanTask(scans[1..][i]).Ok? {
          var k :| 0 <= k < |scans[1..]| && ScanTask(scans[1..][k]) == Err(rest.error)
                   && forall i :: 0 <= i < k ==> ScanTask(scans[1..][i]).Ok?;
          FirstErrorShifted(scans, k, rest.error);
        }
      }
    }
  }

  /** A first scan error among the later rows is a first scan error of all rows when row 0 scans. */
  lemma FirstErrorShifted(scans: seq<Result<Row>>, k: nat, e: Error)
    requires |scans| > 0 && ScanTask(scans[0]).Ok?
    requires k < |scans[1..]| && ScanTask(scans[1..][k]) == Err(e)
    requires forall i :: 0 <= i < k ==> ScanTask(scans[1..][i]).Ok?
    ensures ScanTask(scans[k + 1]) == Err(e)
    ensures forall i :: 0 <= i < k + 1 ==> ScanTask(scans[i]).Ok?
  {
    forall i | 0 <= i < k + 1 ensures ScanTask(scans[i]).Ok? {
      if i > 0 { assert scans[i] == scans[1..][i - 1]; }
    }
  }

  lemma PrependNothing(r: Result<seq<Task>>)
    ensures Prepend([], r) == r
  {
    if r.Ok? {
      assert [] + r.value == r.value;
    }
  }

  lemma PrependTwice(ts: seq<Task>, us: seq<Task>, r: Result<seq<Task>>)
    ensures Prepend(ts, Prepend(us, r)) == Prepend(ts + us, r)
  {
    if r.Ok? {
      assert ts + (us + r.value) == ts + us + r.value;
    }
  }

  /** The `rows.Next()` loop of List, followed by the `rows.Err()` check. */
  method CollectTasks(rows: Rows) returns (r: Result<seq<Task>>)
    ensures r == Collect(rows.scans, rows.err)
  {
    var tasks: seq<Task> := [];
    var i := 0;
    assert rows.scans[i..] == rows.scans;
    PrependNothing(Collect(rows.scans, rows.err));
    while i < |rows.scans|
      invariant 0 <= i <= |rows.scans|
      invariant Collect(rows.scans, rows.err) == Prepend(tasks, Collect(rows.scans[i..], rows.err))
    {
      assert rows.scans[i..][1..] == rows.scans[i + 1..];
      var taskItem := ScanTask(rows.scans[i]);
      if taskItem.Err? {
        return Err(taskItem.error);
      }
      PrependTwice(tasks, [taskItem.value], Collect(rows.scans[i + 1..], rows.err));
      tasks := tasks + [taskItem.value];
      i := i + 1;
    }
    assert rows.scans[i..] == [];
    if rows.err.Some? {
      return Err(rows.err.value);
    }
    assert tasks + [] == tasks;
    return Ok(tasks);
  }

  // ---------------------------------------------------------------- the repository

  class Repository {
    const db: Database

    constructor (db: Database)
      ensures this.db == db
    {
      this.db := db;
    }

    /** Executes the INSERT, then reads the new task back by the id the driver reports. */
    method Create(params: CreateParams) returns (r: Result<Task>)
      modifies db
      ensures
        var n, st := |old(db.log)|, InsertStatement(params);
        var e := db.execReply(n, st);
        if e.Err? then db.log == old(db.log) + [st] && r == Err(e.error)
        else if e.value.lastInsertId.Err? then db.log == old(db.log) + [st] && r == Err(e.value.lastInsertId.error)
        else
          var get := SelectById(ToUint64(e.value.lastInsertId.value));
          db.log == old(db.log) + [st, get] && r == FoundTask(db.queryRowReply(n + 1, get))
    {
      var result := db.Exec(InsertStatement(params));
      if result.Err? {
        return Err(result.error);
      }
      var id := result.value.lastInsertId;
      if id.Err? {
        return Err(id.error);
      }
      r := GetByID(ToUint64(id.value));
    }

    method GetByID(id: Uint64) returns (r: Result<Task>)
      modifies db
      ensures db.log == old(db.log) + [SelectById(id)]
      ensures r == FoundTask(db.queryRowReply(|old(db.log)|, SelectById(id)))
    {
      var row := db.QueryRow(SelectById(id));
      var foundTask := ScanTask(row);
      if foundTask.Err? {
        if foundTask.error == NoRows {
          return Err(TaskNotFound);
        }
        return Err(foundTask.error);
      }
      return foundTask;
    }

    /**
     * One SELECT, then every row scanned. Go's `make` panics on a negative
     * capacity, so the limit must not be negative.
     */
    method List(filter: ListFilter) returns (r: Result<seq<Task>>)
      requires filter.limit >= 0
      modifies db
      ensures db.log == old(db.log) + [ListStatement(filter)]
      ensures
        var q := db.queryReply(|old(db.log)|, ListStatement(filter));
        r == if q.Err? then Err(q.error) else Collect(q.value.scans, q.value.err)
    {
      var st := BuildListStatement(filter);
      var rows := db.Query(st);
      if rows.Err? {
        return Err(rows.error);
      }
      r := CollectTasks(rows.value);
    }

    /**
     * Refuses an update with nothing to set before touching the database;
     * otherwise executes the UPDATE, maps zero rows affected to
     * TaskNotFound and re-reads the task by the same id.
     */
    method Update(id: Uint64, params: UpdateParams) returns (r: Result<Task>)
      modifies db
      ensures
        var n, cs := |old(db.log)|, Assignments(params);
        var st := UpdateStatement(id, cs);
        var e := db.execReply(n, st);
        if cs == [] then db.log == old(db.log) && r == Err(EmptyBody)
        else if e.Err? then db.log == old(db.log) + [st] && r == Err(e.error)
        else if e.value.rowsAffected.Err? then db.log == old(db.log) + [st] && r == Err(e.value.rowsAffected.error)
        else if e.value.rowsAffected.value == 0 then db.log == old(db.log) + [st] && r == Err(TaskNotFound)
        else db.log == old(db.log) + [st, SelectById(id)] && r == FoundTask(db.queryRowReply(n + 1, SelectById(id)))
    {
      var setClauses, args := SetClauses(params);
      if |setClauses| == 0 {
        return Err(Validation("body", "at least one field must be provided for update"));
      }
      var query := UpdateHead + Join(setClauses, ClauseSeparator) + UpdateTail;
      args := args + [SqlInt(id)];
      var result := db.Exec(Statement(query, args));
      if result.Err? {
        return Err(result.error);
      }
      var rowsAffected := result.value.rowsAffected;
      if rowsAffected.Err? {
        return Err(rowsAffected.error);
      }
      if rowsAffected.value == 0 {
        return Err(TaskNotFound);
      }
      r := GetByID(id);
    }

    /** Executes the DELETE and maps zero rows affected to TaskNotFound; None is success. */
    method Delete(id: Uint64) returns (r: Option<Error>)
      modifies db
      ensures db.log == old(db.log) + [DeleteStatement(id)]
      ensures
        var e := db.execReply(|old(db.log)|, DeleteStatement(id));
        r == if e.Err? then Some(e.error)
             else if e.value.rowsAffected.Err? then Some(e.value.rowsAffected.error)
             else if e.value.rowsAffected.value == 0 then Some(TaskNotFound)
             else None
    {
      var result := db.Exec(DeleteStatement(id));
      if result.Err? {
        return Some(result.error);
      }
      var rowsAffected := result.value.rowsAffected;
      if rowsAffected.Err? {
        return Some(rowsAffected.error);
      }
      if rowsAffected.value == 0 {
        return Some(TaskNotFound);
      }
      return None;
    }
  }
}

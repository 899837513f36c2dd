/**
 * The part of Go's database/sql that the MySQL repository relies on.
 *
 * The database is an oracle: it records every statement it is given and
 * answers each with a reply chosen, once and for all, by the position of the
 * statement in its log and the statement itself. Nothing is assumed about
 * those replies, so what is proved about a client of `Database` holds for
 * whatever the server and the driver answer.
 *
 * A statement is its SQL text and the arguments bound to its `?`
 * placeholders; `Placeholders` counts the markers so that "one argument per
 * placeholder" can be stated about every statement the repository builds.
 */
module Sql {
  import opened Wrappers
  import opened TaskErrors
  import opened Clock
  import opened TaskTypes
  import opened Text

  /** An argument as the driver sends it; Go's untyped nil is SqlNull. */
  datatype SqlValue =
    | SqlNull
    | SqlText(text: string)
    | SqlInt(n: int)
    | SqlTime(time: Time)

  datatype Statement = Statement(sql: string, args: seq<SqlValue>)

  /**
   * The eight columns of a `tasks` row as Scan delivers them: description and
   * due_at are the nullable columns (sql.NullString, sql.NullTime).
   */
  datatype Row = Row(
    id: Uint64,
    title: string,
    description: Option<string>,
    status: string,
    priority: Uint8,
    dueAt: Option<Time>,
    createdAt: Time,
    updatedAt: Time)

  /**
   * A result set as the `rows.Next()` loop sees it: what Scan yields for each
   * row Next moves to, and what `rows.Err()` reports once Next returns false.
   */
  datatype Rows = Rows(scans: seq<Result<Row>>, err: Option<Error>)

  /** sql.Result: both accessors can fail on their own. */
  datatype ExecResult = ExecResult(lastInsertId: Result<Int64>, rowsAffected: Result<Int64>)

  // ---------------------------------------------------------------- placeholders

  const Marker := "?"

  /** The number of `?` placeholders in an SQL text. */
  function Placeholders(s: string): nat {
    if |s| == 0 then 0
    else (if s[0] == '?' then 1 else 0) + Placeholders(s[1..])
  }

  /** A statement binds exactly one argument to each placeholder. */
  predicate Bound(st: Statement) {
    Placeholders(st.sql) == |st.args|
  }

  lemma {:induction false} PlaceholdersAppend(a: string, b: string)
    ensures Placeholders(a + b) == Placeholders(a) + Placeholders(b)
  {
    if |a| == 0 {
      assert a + b == b;
    } else {
      assert (a + b)[1..] == a[1..] + b;
      PlaceholdersAppend(a[1..], b);
    }
  }

  lemma {:induction false} PlaceholdersNone(s: string)
    requires '?' !in s
    ensures Placeholders(s) == 0
  {
    if |s| > 0 {
      assert s[0] in s;
      assert forall c :: c in s[1..] ==> c in s;
      PlaceholdersNone(s[1..]);
    }
  }

  lemma MarkerPlaceholders()
    ensures Placeholders(Marker) == 1
  {
  }

  lemma PlaceholdersOf3(a: string, b: string, c: string)
    ensures Placeholders(a + b + c) == Placeholders(a) + Placeholders(b) + Placeholders(c)
  {
    PlaceholdersAppend(a, b);
    PlaceholdersAppend(a + b, c);
  }

  /**
   * A piece of SQL and the arguments its placeholders take: a SET clause of
   * an UPDATE or a condition of a WHERE.
   */
  datatype Fragment = Fragment(text: string, args: seq<SqlValue>)

  predicate WellFormed(f: Fragment) {
    Placeholders(f.text) == |f.args|
  }

  function Texts(fs: seq<Fragment>): (ts: seq<string>)
    ensures |ts| == |fs|
    ensures forall i :: 0 <= i < |fs| ==> ts[i] == fs[i].text
  {
    if fs == [] then [] else [fs[0].text] + Texts(fs[1..])
  }

  lemma TextsAppend(fs: seq<Fragment>, gs: seq<Fragment>)
    ensures Texts(fs + gs) == Texts(fs) + Texts(gs)
  {
    assert |Texts(fs + gs)| == |Texts(fs) + Texts(gs)|;
  }

  /** The arguments of the fragments, in the order their texts appear. */
  function Args(fs: seq<Fragment>): seq<SqlValue> {
    if fs == [] then [] else fs[0].args + Args(fs[1..])
  }

  lemma {:induction false} ArgsAppend(fs: seq<Fragment>, gs: seq<Fragment>)
    ensures Args(fs + gs) == Args(fs) + Args(gs)
  {
    if fs == [] {
      assert fs + gs == gs;
    } else {
      assert (fs + gs)[1..] == fs[1..] + gs;
      ArgsAppend(fs[1..], gs);
    }
  }

  /**
   * Joining well-formed fragments with a separator that has no placeholder
   * gives a text with one placeholder per argument of the fragments.
   */
  lemma {:induction false} JoinPlaceholders(fs: seq<Fragment>, sep: string)
    requires forall i :: 0 <= i < |fs| ==> WellFormed(fs[i])
    requires Placeholders(sep) == 0
    ensures Placeholders(Join(Texts(fs), sep)) == |Args(fs)|
  {
    if |fs| == 1 {
      assert Args(fs) == fs[0].args + Args([]);
    } else if |fs| > 1 {
      assert Texts(fs)[1..] == Texts(fs[1..]);
      JoinPlaceholders(fs[1..], sep);
      PlaceholdersOf3(fs[0].text, sep, Join(Texts(fs[1..]), sep));
    }
  }

  // ---------------------------------------------------------------- the database handle

  /**
   * *sql.DB as seen by the repository: ExecContext, QueryRowContext and
   * QueryContext. The n-th statement (counted from 0 over all three) is
   * answered by the matching reply function applied to n and the statement.
   */
  class Database {
    var log: seq<Statement>
    const execReply: (nat, Statement) -> Result<ExecResult>
    const queryRowReply: (nat, Statement) -> Result<Row>
    const queryReply: (nat, Statement) -> Result<Rows>

    constructor (execReply: (nat, Statement) -> Result<ExecResult>,
                 queryRowReply: (nat, Statement) -> Result<Row>,
                 queryReply: (nat, Statement) -> Result<Rows>)
      ensures log == []
      ensures this.execReply == execReply
      ensures this.queryRowReply == queryRowReply
      ensures this.queryReply == queryReply
    {
      log := [];
      this.execReply := execReply;
      this.queryRowReply := queryRowReply;
      this.queryReply := queryReply;
    }

    method Exec(st: Statement) returns (r: Result<ExecResult>)
      modifies this
      ensures log == old(log) + [st]
      ensures r == execReply(|old(log)|, st)
    {
      r := execReply(|log|, st);
      log := log + [st];
    }

    /** QueryRowContext followed by Scan: a missing row is Err(NoRows). */
    method QueryRow(st: Statement) returns (r: Result<Row>)
      modifies this
      ensures log == old(log) + [st]
      ensures r == queryRowReply(|old(log)|, st)
    {
      r := queryRowReply(|log|, st);
      log := log + [st];
    }

    method Query(st: Statement) returns (r: Result<Rows>)
      modifies this
      ensures log == old(log) + [st]
      ensures r == queryReply(|old(log)|, st)
    {
      r := queryReply(|log|, st);
      log := log + [st];
    }
  }
}

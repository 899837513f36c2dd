/**
 * internal/task/errors.go: the error values of the task core.
 *
 * Go's `error` interface is closed here into one datatype: the two errors the
 * core itself defines (ValidationError and the ErrTaskNotFound sentinel),
 * sql.ErrNoRows, which only the MySQL repository looks at, and every other
 * store or driver error as an opaque value carrying its text.
 */
module TaskErrors {

  datatype Error =
    | Validation(field: string, message: string)
    | TaskNotFound
    | NoRows
    | Store(text: string)

  /** A Go `(T, error)` pair: exactly one of the two is meaningful. */
  datatype Result<+T> = Ok(value: T) | Err(error: Error) {

    predicate IsFailure() {
      Err?
    }

    function PropagateFailure<U>(): Result<U>
      requires Err?
    {
      Err(error)
    }

    function Extract(): T
      requires Ok?
    {
      value
    }
  }

  const ValidationPrefix := "invalid "
  const TaskNotFoundText := "task not found"
  const NoRowsText := "sql: no rows in result set"

  /** The text `Error()` gives for each error. */
  function Text(e: Error): string {
    match e
    case Validation(field, message) => ValidationPrefix + field + ": " + message
    case TaskNotFound => TaskNotFoundText
    case NoRows => NoRowsText
    case Store(text) => text
  }

  /** The rendering of a validation error splits into prefix, field, separator and message. */
  lemma ValidationTextLayout(field: string, message: string)
    ensures var s := Text(Validation(field, message));
      && |s| == 10 + |field| + |message|
      && s[..8] == "invalid "
      && s[8..8 + |field|] == field
      && s[8 + |field|..10 + |field|] == ": "
      && s[10 + |field|..] == message
  {
    var s := Text(Validation(field, message));
    assert s == "invalid " + field + ": " + message;
  }

  /** The example rendering of the type's own test. */
  lemma ValidationTextExample()
    ensures Text(Validation("status", "must be valid")) == "invalid status: must be valid"
  {
  }

  /**
   * A rendered validation error determines its field and message, as long as
   * field names contain no colon (every field the service uses is a plain word).
   */
  lemma ValidationTextInjective(f1: string, m1: string, f2: string, m2: string)
    requires ':' !in f1 && ':' !in f2
    requires Text(Validation(f1, m1)) == Text(Validation(f2, m2))
    ensures f1 == f2 && m1 == m2
  {
    var s := Text(Validation(f1, m1));
    ValidationTextLayout(f1, m1);
    ValidationTextLayout(f2, m2);
    if |f1| < |f2| {
      ColonInLongerField(f1, m1, f2, m2);
      assert false;
    } else if |f2| < |f1| {
      ColonInLongerField(f2, m2, f1, m1);
      assert false;
    }
    assert f1 == s[8 .. 8 + |f1|] == f2;
    assert m1 == s[10 + |f1|..] == m2;
  }

  /** Of two fields that render alike, the longer holds the colon that follows the shorter. */
  lemma ColonInLongerField(f1: string, m1: string, f2: string, m2: string)
    requires |f1| < |f2|
    requires Text(Validation(f1, m1)) == Text(Validation(f2, m2))
    ensures ':' in f2
  {
    var s := Text(Validation(f1, m1));
    ValidationTextLayout(f1, m1);
    ValidationTextLayout(f2, m2);
    assert s[8 + |f1|] == ':';
    assert s[8 + |f1|] == f2[|f1|];
  }

  /** ErrTaskNotFound is never confused with a validation error, by value or by text. */
  lemma NotFoundIsNotValidation(field: string, message: string)
    ensures TaskNotFound != Validation(field, message)
    ensures Text(TaskNotFound) != Text(Validation(field, message))
  {
    var s := Text(Validation(field, message));
    ValidationTextLayout(field, message);
    assert s[0] == 'i';
    assert Text(TaskNotFound)[0] == 't';
  }
}

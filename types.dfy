/**
 * internal/task/types.go: the Status enum and the record shapes that cross
 * the service boundary. Raw inputs (`...Input`) carry caller data as given;
 * `CreateParams`, `UpdateParams` and `ListFilter` carry validated data.
 * Go pointers become Option values; Go's fixed-width integers become subset
 * types of int with their ranges (`int` is taken to be 64 bits wide).
 */
module TaskTypes {
  import opened Wrappers
  import opened Clock
  import opened Text

  type Uint8 = x: int | 0 <= x < 0x100
  type Int64 = x: int | -0x8000_0000_0000_0000 <= x < 0x8000_0000_0000_0000
  type Uint64 = x: int | 0 <= x < 0x1_0000_0000_0000_0000

  /** Go's `type Status string`: any string can be a Status; IsValid picks the three real ones. */
  type Status = string

  const StatusNew: Status := "new"
  const StatusInProgress: Status := "in_progress"
  const StatusDone: Status := "done"

  predicate IsValid(s: Status) {
    s == StatusNew || s == StatusInProgress || s == StatusDone
  }

  datatype Task = Task(
    id: Uint64,
    title: string,
    description: string,
    status: Status,
    priority: Uint8,
    dueAt: Option<Time>,
    createdAt: Time,
    updatedAt: Time)

  datatype CreateTaskInput = CreateTaskInput(
    title: string,
    description: string,
    status: string,
    priority: Int64,
    dueAt: Option<Time>)

  datatype UpdateTaskInput = UpdateTaskInput(
    title: Option<string>,
    description: Option<string>,
    status: Option<string>,
    priority: Option<Int64>,
    dueAt: Option<Time>,
    clearDueAt: bool)

  datatype ListTasksInput = ListTasksInput(
    status: string,
    query: string,
    limit: Int64,
    offset: Int64)

  datatype ListFilter = ListFilter(
    status: Option<Status>,
    query: string,
    limit: Int64,
    offset: Int64)

  datatype CreateParams = CreateParams(
    title: string,
    description: string,
    status: Status,
    priority: Uint8,
    dueAt: Option<Time>)

  datatype UpdateParams = UpdateParams(
    title: Option<string>,
    description: Option<string>,
    status: Option<Status>,
    priority: Option<Uint8>,
    dueAt: Option<Time>,
    clearDueAt: bool)

  /** The three named statuses are valid. */
  lemma NamedStatusesValid()
    ensures IsValid(StatusNew) && IsValid(StatusInProgress) && IsValid(StatusDone)
  {
  }

  /** IsValid holds of the three names and of no other string. */
  lemma IsValidExactlyThree(s: Status)
    ensures IsValid(s) <==> s in {"new", "in_progress", "done"}
  {
  }

  /** The examples the type's own test rejects. */
  lemma IsValidRejectsOthers()
    ensures !IsValid("") && !IsValid("other")
  {
  }

  lemma StatusesDistinct()
    ensures StatusNew != StatusInProgress && StatusNew != StatusDone && StatusInProgress != StatusDone
  {
  }

  /** A valid status is already trimmed and lower case: normalising it changes nothing. */
  lemma IsValidIsNormal(s: Status)
    requires IsValid(s)
    ensures TrimSpace(s) == s && ToLower(s) == s
  {
    if s == StatusNew {
      LowerAsciiIsNormal(StatusNew);
    } else if s == StatusInProgress {
      LowerAsciiIsNormal(StatusInProgress);
    } else {
      LowerAsciiIsNormal(StatusDone);
    }
  }

  /** IsValid does not trim: padding a valid status with a space makes it invalid. */
  lemma IsValidRejectsPadding(s: Status)
    requires IsValid(s)
    ensures !IsValid(" " + s) && !IsValid(s + " ")
  {
    assert ' ' !in StatusNew && ' ' !in StatusInProgress && ' ' !in StatusDone;
    assert (" " + s)[0] == ' ' && (s + " ")[|s|] == ' ';
  }

  /** IsValid does not fold case: upper-casing any letter of a valid status makes it invalid. */
  lemma IsValidRejectsUpperCase(s: Status, i: nat)
    requires IsValid(s) && i < |s| && 'a' <= s[i] <= 'z'
    ensures !IsValid(s[i := (s[i] as int - 32) as char])
  {
    var u := s[i := (s[i] as int - 32) as char];
    assert 'A' <= u[i] <= 'Z';
    assert forall j :: 0 <= j < |StatusNew| ==> !('A' <= StatusNew[j] <= 'Z');
    assert forall j :: 0 <= j < |StatusInProgress| ==> !('A' <= StatusInProgress[j] <= 'Z');
    assert forall j :: 0 <= j < |StatusDone| ==> !('A' <= StatusDone[j] <= 'Z');
  }
}

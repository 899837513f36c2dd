/**
 * internal/task/repository.go: the storage contract the service depends on,
 * with the recording test double of internal/task/service_test.go.
 *
 * The five contract operations are the constructors of `Call`. The double
 * answers every call with a reply fixed when it is built and appends the
 * call to its log, so that a client's contract can say exactly which calls
 * it made (none, on a validation failure) and that it returned the reply it
 * received. The replies are arbitrary, so what is proved about a client of
 * the double holds for whatever a real repository answers.
 */
module TaskRepository {
  import opened Wrappers
  import opened TaskErrors
  import opened TaskTypes

  datatype Call =
    | CreateCall(createParams: CreateParams)
    | GetByIdCall(id: Uint64)
    | ListCall(filter: ListFilter)
    | UpdateCall(id: Uint64, updateParams: UpdateParams)
    | DeleteCall(id: Uint64)

  class RecordingRepository {
    var calls: seq<Call>
    const createReply: Result<Task>
    const getReply: Result<Task>
    const listReply: Result<seq<Task>>
    const updateReply: Result<Task>
    /** Delete returns only an error; None is Go's nil. */
    const deleteReply: Option<Error>

    constructor (createReply: Result<Task>, getReply: Result<Task>, listReply: Result<seq<Task>>,
                 updateReply: Result<Task>, deleteReply: Option<Error>)
      ensures calls == []
      ensures this.createReply == createReply && this.getReply == getReply
      ensures this.listReply == listReply && this.updateReply == updateReply
      ensures this.deleteReply == deleteReply
    {
      calls := [];
      this.createReply := createReply;
      this.getReply := getReply;
      this.listReply := listReply;
      this.updateReply := updateReply;
      this.deleteReply := deleteReply;
    }

    method Create(params: CreateParams) returns (r: Result<Task>)
      modifies this
      ensures calls == old(calls) + [CreateCall(params)]
      ensures r == createReply
    {
      calls := calls + [CreateCall(params)];
      r := createReply;
    }

    method GetByID(id: Uint64) returns (r: Result<Task>)
      modifies this
      ensures calls == old(calls) + [GetByIdCall(id)]
      ensures r == getReply
    {
      calls := calls + [GetByIdCall(id)];
      r := getReply;
    }

    method List(filter: ListFilter) returns (r: Result<seq<Task>>)
      modifies this
      ensures calls == old(calls) + [ListCall(filter)]
      ensures r == listReply
    {
      calls := calls + [ListCall(filter)];
      r := listReply;
    }

    method Update(id: Uint64, params: UpdateParams) returns (r: Result<Task>)
      modifies this
      ensures calls == old(calls) + [UpdateCall(id, params)]
      ensures r == updateReply
    {
      calls := calls + [UpdateCall(id, params)];
      r := updateReply;
    }

    method Delete(id: Uint64) returns (r: Option<Error>)
      modifies this
      ensures calls == old(calls) + [DeleteCall(id)]
      ensures r == deleteReply
    {
      calls := calls + [DeleteCall(id)];
      r := deleteReply;
    }
  }
}

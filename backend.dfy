/** The solver the concretizing layer decorates, seen only through the
    operations the layer calls. Its answers are a fixed function of what it
    is asked, so it is deterministic; the model does not give it any SMT
    semantics. */
module Backend {
  import opened Exprs

  /** What one `computeInitialValues` call reports: whether the call succeeded,
      one byte buffer per requested array, and whether a solution exists. */
  datatype Answer = Answer(success: bool, values: seq<seq<bv8>>, hasSolution: bool)

  /** One `computeInitialValues` call, as logged by the backend. */
  datatype Call = Call(query: Query, objects: seq<Array>)

  class Solver {
    /** The answer to a query for the given arrays, given what the caller's
        output vector and `hasSolution` flag held before the call (a backend
        that does not write one of them leaves it as it was) and the timeout
        in force. */
    const answer: (Query, seq<Array>, seq<seq<bv8>>, bool, int) -> Answer
    /** The text `getConstraintLog` produces for a query. */
    const constraintLog: Query -> string
    /** The status `getOperationStatusCode` reports. */
    var status: int
    /** The timeout last set with `setCoreSolverTimeout`. */
    var timeout: int
    /** Every `computeInitialValues` call made so far, oldest first. */
    var calls: seq<Call>

    constructor (answer: (Query, seq<Array>, seq<seq<bv8>>, bool, int) -> Answer,
                 constraintLog: Query -> string, status: int, timeout: int)
      ensures this.answer == answer && this.constraintLog == constraintLog
      ensures this.status == status && this.timeout == timeout && calls == []
    {
      this.answer := answer;
      this.constraintLog := constraintLog;
      this.status := status;
      this.timeout := timeout;
      calls := [];
    }

    method ComputeInitialValues(query: Query, objects: seq<Array>, values: seq<seq<bv8>>,
                                hasSolution: bool)
      returns (a: Answer)
      modifies this
      ensures a == answer(query, objects, values, hasSolution, old(timeout))
      ensures calls == old(calls) + [Call(query, objects)]
      ensures status == old(status) && timeout == old(timeout)
    {
      a := answer(query, objects, values, hasSolution, timeout);
      calls := calls + [Call(query, objects)];
    }
  }
}

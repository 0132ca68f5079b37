/** The fate of an action that changes the world: done, an exception, or the end of the process. */
module Attempts {
  import opened Wrappers

  datatype Attempt = Done | Raised(error: Error) | Crashed {
    predicate IsFailure() {
      !Done?
    }

    /** An answer about revisions or about an unknown zone, rather than a failure. */
    predicate Refused() {
      Raised? && error.ApiError? && (error.status == 409 || error.status == 404)
    }

    /** Raised, if at all, is only what an access to files or Knot can raise. */
    predicate Genuine() {
      Raised? ==> error.CommandError? || error.OsError? || (error.ApiError? && error.status == 422)
    }

    function PropagateFailure(): Attempt
      requires !Done?
    {
      this
    }
  }
}

/** Settled outcomes of awaited collaborator calls, and the call log kept beside a result. */
module Outcomes {

  datatype Option<T> = None | Some(value: T)

  /** Whatever a collaborator throws, or what a rejected promise carries. */
  datatype Thrown = Thrown(detail: string)

  /** An awaited call either resolves with a value or rejects with an error. */
  datatype Result<T> = Resolved(value: T) | Rejected(error: Thrown)

  /** Two settled calls that agree on everything except the detail of what was thrown. */
  predicate SameUpToDetail<T(==)>(a: Result<T>, b: Result<T>) {
    a.Resolved? == b.Resolved? && (a.Resolved? ==> a.value == b.value)
  }

  /** A result together with the collaborator calls made to produce it, in the order made. */
  datatype Traced<T, C> = Traced(result: T, calls: seq<C>)
}

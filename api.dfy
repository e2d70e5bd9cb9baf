/**
 * The outcome of a call to the remote API as the front-end hooks see it, and
 * how an `async` hook operation settles.
 */
module Api {
  import opened Wrappers

  /** What a `fetch` came back with: a parsed ok body; a non-ok response with
      its status and the `error` field of its JSON body, if any; or a thrown
      error (network failure, unparseable body) with its message. */
  datatype Remote<T> = Ok(data: T) | Rejected(status: nat, errorField: Option<string>) | Unreachable(reason: string)

  /** How an `async` hook operation settles: resolved with a value, or
      rejected with the message of the error it rethrows. */
  datatype Settled<T> = Resolved(value: T) | Thrown(message: string)

  /** The message a failed call rethrows: `errorData.error || fallback` for a
      non-ok response, the thrown error's own message otherwise. */
  function FailureMessage<T>(outcome: Remote<T>, fallback: string): (m: string)
    requires !outcome.Ok?
    ensures outcome.Rejected? && (outcome.errorField.None? || outcome.errorField.value == "") ==> m == fallback
    ensures outcome.Rejected? && outcome.errorField.Some? && outcome.errorField.value != "" ==> m == outcome.errorField.value
    ensures outcome.Unreachable? ==> m == outcome.reason
  {
    match outcome
    case Rejected(_, e) => if e.Some? && e.value != "" then e.value else fallback
    case Unreachable(reason) => reason
  }
}

/** What the frontend sees of an HTTP exchange once the promise settles. */
module Http {
  import opened Wrappers
  import opened Values

  datatype Verb = GET | POST | PUT | DELETE

  /** Why an awaited call rejected. */
  datatype Failure =
    | HttpError(status: Option<int>, code: string, message: string)  // an axios error; `status` is `error.response?.status`
    | TypeError                                                       // thrown by the frontend code itself

  /** How an awaited request settles: the response body, or the error it rejects with. */
  datatype Reply = Replied(data: Value) | Failed(error: Failure)

  /** How an `async` function of the frontend settles. */
  datatype Outcome = Resolved(value: Value) | Rejected(error: Failure)
}

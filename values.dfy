/** Small value types shared by the server and client models. */
module Values {

  /** A JavaScript value that may be `undefined`/`null`. */
  datatype Option<T> = None | Some(value: T)

  /** The outcome of an awaited call into a library the model cannot see:
      it either returns a value or throws. */
  datatype Call<T> = Returned(value: T) | Threw

  /** An HTTP error response: its status code and the `error` message of its JSON body. */
  datatype Failure = Failure(status: nat, message: string)

  /** An HTTP response: a success body, or an error status with its message. */
  datatype Reply<T> = Ok(body: T) | Err(failure: Failure)

  /** JavaScript truthiness of an optional string: `undefined`, `null` and "" are falsy. */
  predicate Truthy(v: Option<string>)
  {
    v.Some? && v.value != ""
  }
}

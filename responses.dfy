/**
 * The JSON envelope every handler answers with: `{status: "success", data}` or
 * `{status: "error", message}` (controllers/calcController.js writes it as two helpers,
 * controller/calccontroller.js as object literals of the same shape).
 */
module Responses {
  import opened Wrappers

  /** The envelope as a record of its three possible fields; an absent field is None. */
  datatype Envelope<+T> = Envelope(status: string, data: Option<T>, message: Option<string>)

  /** Exactly one of the two shapes: a success carrying only data, or an error carrying only a message. */
  predicate WellTagged<T>(e: Envelope<T>)
  {
    || (e.status == "success" && e.data.Some? && e.message.None?)
    || (e.status == "error" && e.data.None? && e.message.Some?)
  }

  /** `success(data)`. */
  function Success<T>(data: T): (e: Envelope<T>)
    ensures WellTagged(e) && e.status == "success" && e.data == Some(data)
  {
    Envelope("success", Some(data), None)
  }

  /** `error(msg)`. */
  function Failure<T>(msg: string): (e: Envelope<T>)
    ensures WellTagged(e) && e.status == "error" && e.message == Some(msg)
  {
    Envelope("error", None, Some(msg))
  }

  /** Every well-tagged envelope is what one of the two helpers builds, and the status tells which. */
  lemma WellTaggedIsSuccessOrFailure<T>(e: Envelope<T>)
    requires WellTagged(e)
    ensures e.status == "success" ==> e == Success(e.data.value)
    ensures e.status == "error" ==> e == Failure(e.message.value)
    ensures e.status == "success" || e.status == "error"
  {
  }
}

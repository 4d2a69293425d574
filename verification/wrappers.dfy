/** Small shared datatypes: an optional value, and an error raised by code
    outside the model (the JSON decoder, the network, the crypto library),
    known to the model only by the text its Error() method returns. */
module Wrappers {

  datatype Option<+T> = None | Some(value: T) {

    /** The wrapped value, or `default` when there is none. */
    function GetOr(default: T): T {
      match this
      case Some(v) => v
      case None => default
    }
  }

  /** A Go `error` produced by a collaborator the model does not open up. */
  datatype Cause = Cause(text: string)

  /** One byte of a WebSocket payload. */
  newtype byte = x: int | 0 <= x < 256
}

/** Python exceptions and the "returns or raises" shape every modelled call has. */
module Outcomes {

  /** The exceptions the core raises itself, plus opaque failures of collaborators. */
  datatype Failure =
    | RuntimeError(message: string)
    | IndexError
    | KeyError(key: string)
    | TypeError
    | AttributeError(attribute: string)
    | UnicodeEncodeError(position: nat)
    | RpcError(cause: Failure)      // a server-side failure as the transport reports it to the client
    | External(detail: string)      // anything raised by JSON, the transport or user code

  /** A call either returns a value or raises a failure. */
  datatype Outcome<+T> = Ok(value: T) | Fail(error: Failure)

  datatype Option<+T> = None | Some(value: T)
}

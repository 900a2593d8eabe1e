/** Classification of accept errors (src/error.rs). */
module Errors {

  datatype IoErrorKind =
    | ConnectionAborted
    | Interrupted
    | InvalidData
    | WouldBlock
    | PermissionDenied
    | ConnectionReset
    | NotConnected
    | UnexpectedEof
    | OtherKind(code: nat)

  /** The crate's boxed error: either an `io::Error`, which a downcast recovers, or anything else.
      `detail` stands for the payload that classification does not look at. */
  datatype TransportError =
    | Io(kind: IoErrorKind, detail: nat)
    | Opaque(detail: nat)

  datatype ControlFlow = Continue | Break(error: TransportError)

  /** Only four kinds of I/O error let the accept loop go on silently; every other error,
      of whatever type, is handed back unchanged. */
  function HandleAcceptError(e: TransportError): (flow: ControlFlow)
    ensures flow == Continue <==> e.Io? && e.kind in {ConnectionAborted, Interrupted, InvalidData, WouldBlock}
    ensures flow.Break? ==> flow.error == e
  {
    match e
    case Io(ConnectionAborted, _) => Continue
    case Io(Interrupted, _) => Continue
    case Io(InvalidData, _) => Continue
    case Io(WouldBlock, _) => Continue
    case _ => Break(e)
  }

  predicate IsFatal(e: TransportError) {
    HandleAcceptError(e).Break?
  }
}

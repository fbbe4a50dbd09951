/**
 * What both handler registries share: callbacks are opaque identities, and a dispatch reports
 * which callback (if any) it invoked and which error (if any) it returns.
 */
module Dispatching {
  import opened Wrappers

  /** A registered callback, known only by its identity. */
  type HandlerId = nat

  /** The errors `ExecuteMsgHandler` can return. */
  datatype DispatchError =
    | NoHandler(key: string)          // "no message handler is known for the message type key ..."
    | AuthRequired                    // "message handling requires authentication"
    | HandlerFailed(reason: string)   // the callback's own error, passed through

  /** The outcome of one dispatch: the callback invoked, and the error returned (nil if None). */
  datatype Dispatch = Dispatch(invoked: Option<HandlerId>, err: Option<DispatchError>)

  /**
   * Calling a callback: `outcomes(cb)` is the error the callback returns for the client and
   * message at hand (None for nil); it is handed back unchanged.
   */
  function Invoke(cb: HandlerId, outcomes: HandlerId -> Option<string>): (d: Dispatch)
    ensures d.invoked == Some(cb)
    ensures d.err.Some? <==> outcomes(cb).Some?
    ensures outcomes(cb).Some? ==> d.err == Some(HandlerFailed(outcomes(cb).value))
  {
    Dispatch(Some(cb), if outcomes(cb).Some? then Some(HandlerFailed(outcomes(cb).value)) else None)
  }
}

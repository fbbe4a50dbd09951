/**
 * The handler registry of the older revision (service/msghandlerservice): every message key maps
 * straight to a callback, and there is no authentication gate.
 */
module LegacyMsgHandlers {
  import opened Wrappers
  import opened Envelope
  import opened Dispatching
  import opened Clients

  class MessageHandlerService {
    var handlers: map<string, HandlerId>

    /** `Instance()`: an empty table. */
    constructor ()
      ensures handlers == map[]
    {
      handlers := map[];
    }

    /** Installs callback under key, overwriting any earlier one; other keys are untouched. */
    method RegisterMsgHandler(key: string, callback: HandlerId)
      modifies this
      ensures handlers == old(handlers)[key := callback]
      ensures forall k :: k != key && k in old(handlers) ==> k in handlers && handlers[k] == old(handlers)[k]
    {
      handlers := handlers[key := callback];
    }

    /**
     * Dispatch: an unknown key fails and calls nothing; a known key calls exactly its callback,
     * whoever the client is, and returns the callback's error unchanged.
     */
    function ExecuteMsgHandler(client: Client, msg: Msg, outcomes: HandlerId -> Option<string>): (r: Dispatch)
      reads this
      ensures msg.key !in handlers ==> r == Dispatch(None, Some(NoHandler(msg.key)))
      ensures r.invoked.Some? <==> msg.key in handlers
      ensures r.invoked.Some? ==>
        && r.invoked.value == handlers[msg.key]
        && (r.err.Some? <==> outcomes(r.invoked.value).Some?)
        && (r.err.Some? ==> r.err.value == HandlerFailed(outcomes(r.invoked.value).value))
    {
      if msg.key !in handlers then
        Dispatch(None, Some(NoHandler(msg.key)))
      else
        Invoke(handlers[msg.key], outcomes)
    }
  }

  /** No authentication gate: the outcome is the same for every client. */
  lemma NoAuthGate(s: MessageHandlerService, c1: Client, c2: Client, msg: Msg,
                   outcomes: HandlerId -> Option<string>)
    requires !c1.authenticated && c2.authenticated
    ensures s.ExecuteMsgHandler(c1, msg, outcomes) == s.ExecuteMsgHandler(c2, msg, outcomes)
  {
  }

  /**
   * The key CreateMsg gives a payload is the name a handler registers under for that payload's
   * type (`reflect.TypeOf(new(T)).Elem().Name()`), so the message reaches that handler.
   */
  lemma CreatedMessageRoutes(s: MessageHandlerService, client: Client, data: Payload, k: Kind,
                             outcomes: HandlerId -> Option<string>)
    requires TypeName(k) in s.handlers
    requires k == KindOf(data)
    ensures s.ExecuteMsgHandler(client, CreateMsg(data), outcomes).invoked == Some(s.handlers[TypeName(k)])
  {
  }
}

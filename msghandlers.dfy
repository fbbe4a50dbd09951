/**
 * The handler registry of the newer revision (services/msghandlerservice): every message key maps
 * to a registration holding a requires-authentication flag and a callback; dispatch looks the key
 * up, applies the authentication gate, then calls the callback.
 */
module MsgHandlers {
  import opened Wrappers
  import opened Envelope
  import opened Dispatching
  import opened Clients

  datatype Registration = Registration(requiresAuth: bool, callback: HandlerId)

  class MsgHandlerService {
    var handlers: map<string, Registration>

    /** `Instance()`: an empty table. */
    constructor ()
      ensures handlers == map[]
    {
      handlers := map[];
    }

    /** Installs (requiresAuth, callback) under key, replacing any earlier entry for key. */
    method RegisterMsgHandler(key: string, requiresAuth: bool, callback: HandlerId)
      modifies this
      ensures handlers == old(handlers)[key := Registration(requiresAuth, callback)]
      ensures forall k :: k != key && k in old(handlers) ==> k in handlers && handlers[k] == old(handlers)[k]
    {
      handlers := handlers[key := Registration(requiresAuth, callback)];
    }

    /**
     * Dispatch: an unknown key fails before the authentication gate is consulted; an entry that
     * requires authentication refuses an unauthenticated client; otherwise exactly the registered
     * callback runs and its error is returned unchanged.
     */
    function ExecuteMsgHandler(client: Client, msg: Msg, outcomes: HandlerId -> Option<string>): (r: Dispatch)
      reads this, client
      ensures msg.key !in handlers ==> r == Dispatch(None, Some(NoHandler(msg.key)))
      ensures msg.key in handlers && handlers[msg.key].requiresAuth && !client.authenticated ==>
        r == Dispatch(None, Some(AuthRequired))
      ensures r.invoked.Some? <==>
        msg.key in handlers && (!handlers[msg.key].requiresAuth || client.authenticated)
      ensures r.invoked.Some? ==>
        && r.invoked.value == handlers[msg.key].callback
        && (r.err.Some? <==> outcomes(r.invoked.value).Some?)
        && (r.err.Some? ==> r.err.value == HandlerFailed(outcomes(r.invoked.value).value))
    {
      if msg.key !in handlers then
        Dispatch(None, Some(NoHandler(msg.key)))
      else if handlers[msg.key].requiresAuth && !client.authenticated then
        Dispatch(None, Some(AuthRequired))
      else
        Invoke(handlers[msg.key].callback, outcomes)
    }
  }

  /**
   * The same message from an unauthenticated and an authenticated client: refused for the first
   * exactly when the entry requires authentication, and always delivered to the callback for the
   * second.
   */
  lemma AuthenticationUnlocks(s: MsgHandlerService, anon: Client, authed: Client, msg: Msg,
                              outcomes: HandlerId -> Option<string>)
    requires msg.key in s.handlers
    requires !anon.authenticated && authed.authenticated
    ensures s.ExecuteMsgHandler(authed, msg, outcomes).invoked == Some(s.handlers[msg.key].callback)
    ensures s.ExecuteMsgHandler(anon, msg, outcomes).err == Some(AuthRequired) <==> s.handlers[msg.key].requiresAuth
    ensures !s.handlers[msg.key].requiresAuth ==>
      s.ExecuteMsgHandler(anon, msg, outcomes) == s.ExecuteMsgHandler(authed, msg, outcomes)
  {
  }

  /**
   * A message built with CreateMsg from a payload of type k reaches the callback registered under
   * k's type name (`reflect.TypeOf(new(T)).Elem().Name()`), once the gate lets the client through.
   */
  lemma CreatedMessageRoutes(s: MsgHandlerService, client: Client, data: Payload, k: Kind,
                             outcomes: HandlerId -> Option<string>)
    requires TypeName(k) in s.handlers
    requires !s.handlers[TypeName(k)].requiresAuth || client.authenticated
    requires k == KindOf(data)
    ensures s.ExecuteMsgHandler(client, CreateMsg(data), outcomes).invoked == Some(s.handlers[TypeName(k)].callback)
  {
  }
}

/**
 * How the two handler registries relate: with the same callbacks under the same keys, they
 * dispatch alike except where the newer revision's authentication gate refuses a client.
 */
module Revisions {
  import opened Wrappers
  import opened Envelope
  import opened Dispatching
  import opened Clients
  import MsgHandlers
  import LegacyMsgHandlers

  /** Both registries hold the same callback under every key, and no other keys. */
  ghost predicate SameCallbacks(newer: MsgHandlers.MsgHandlerService, older: LegacyMsgHandlers.MessageHandlerService)
    reads newer, older
  {
    && newer.handlers.Keys == older.handlers.Keys
    && forall k :: k in newer.handlers ==> newer.handlers[k].callback == older.handlers[k]
  }

  /** For an authenticated client (or an entry that needs no authentication) the revisions agree. */
  lemma GatePassedDispatchAgrees(newer: MsgHandlers.MsgHandlerService, older: LegacyMsgHandlers.MessageHandlerService,
                                 client: Client, msg: Msg, outcomes: HandlerId -> Option<string>)
    requires SameCallbacks(newer, older)
    requires client.authenticated || msg.key !in newer.handlers || !newer.handlers[msg.key].requiresAuth
    ensures newer.ExecuteMsgHandler(client, msg, outcomes) == older.ExecuteMsgHandler(client, msg, outcomes)
  {
    if msg.key in newer.handlers {
      assert msg.key in older.handlers;
    }
  }

  /**
   * An unauthenticated client sending a key whose newer entry requires authentication: the newer
   * revision refuses without calling anything, the older one calls the callback.
   */
  lemma GateRefusalDiffers(newer: MsgHandlers.MsgHandlerService, older: LegacyMsgHandlers.MessageHandlerService,
                           client: Client, msg: Msg, outcomes: HandlerId -> Option<string>)
    requires SameCallbacks(newer, older)
    requires !client.authenticated && msg.key in newer.handlers && newer.handlers[msg.key].requiresAuth
    ensures newer.ExecuteMsgHandler(client, msg, outcomes) == Dispatch(None, Some(AuthRequired))
    ensures older.ExecuteMsgHandler(client, msg, outcomes).invoked == Some(newer.handlers[msg.key].callback)
  {
    assert msg.key in older.handlers;
  }
}

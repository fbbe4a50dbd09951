/**
 * The TCP transport (packet-server/tcp in the newer revision, tcp-server in the older one) seen
 * from the game server: an abstract connection handle, and the events the game server hands to
 * the transport or exchanges with its heartbeat monitor, recorded in order.
 */
module Transport {
  import opened Dispatching

  /** A connection handle: its numeric ID and its remote address. */
  datatype Conn = Conn(id: int, remoteAddr: string)

  datatype Event =
    | Send(to: Conn, data: string)            // SendBytes on one connection
    | SendAll(data: string)                   // SendBytesAll on the server
    | Close(conn: Conn)                       // closing one connection
    | Dispatched(from: Conn, handler: HandlerId)  // a registered callback ran for an inbound message
    | ListenerStart(addr: string)             // the TCP server was asked to start listening
    | MonitorStarted                          // the heartbeat monitor was launched
    | HbKill                                  // the kill signal sent to the monitor
    | HbStopped                               // the monitor's acknowledgement that it has stopped
    | ListenerStop                            // the TCP server was asked to stop

  /** Events that come from kicking clients. */
  predicate KickOnly(events: seq<Event>)
  {
    forall e :: e in events ==> e.SendAll? || e.Close?
  }
}

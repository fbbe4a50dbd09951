/**
 * The game server service of the older revision (service/gameserverservice): a client table keyed
 * by the connection's remote address, a `running` sentinel that every lifecycle operation checks,
 * the transport's three event callbacks, broadcasts that demand a running service, kicks, the
 * heartbeat monitor and its sweep. A dispatch error closes the sender's connection.
 */
module LegacyGameServer {
  import opened Wrappers
  import opened Envelope
  import opened Framing
  import opened Dispatching
  import opened Transport
  import opened Clients
  import opened Liveness
  import LegacyMsgHandlers

  datatype Config = Config(tcpAddr: string, clientHeartbeatTimeoutSecs: int)

  /** The chat line broadcast before a client is kicked, built from the older ChatMsg payload. */
  function KickNotice(username: string, reason: string): (m: Msg)
    ensures m.key == "ChatMsg"
    ensures m.data == ChatMsg("Server", "Kicking player " + username + ". (Reason: " + reason + ")", ChatColDef)
  {
    CreateMsg(ChatMsg("Server", "Kicking player " + username + ". (Reason: " + reason + ")", ChatColDef))
  }

  /**
   * The events a dispatch produces under the older policy: the invoked callback, if any, and then
   * the sender's connection closed when the dispatch returned an error.
   */
  function DispatchEvents(conn: Conn, d: Dispatch): (r: seq<Event>)
    ensures Close(conn) in r <==> d.err.Some?
    ensures (exists h :: Dispatched(conn, h) in r) <==> d.invoked.Some?
    ensures |r| <= 2
  {
    (if d.invoked.Some? then [Dispatched(conn, d.invoked.value)] else []) +
    (if d.err.Some? then [Close(conn)] else [])
  }

  class GameServerService {
    /** encoding/json, foreign to the model. */
    const codec: Codec
    var running: bool
    var config: Option<Config>
    var clients: map<string, Client>
    /** Everything handed to the transport or exchanged with the monitor, in order. */
    var log: seq<Event>

    /** Every client is filed under its own connection's remote address. */
    ghost predicate Valid()
      reads this`clients
    {
      forall addr :: addr in clients ==> clients[addr].tcpClient.remoteAddr == addr
    }

    /** `Instance()`: not running, not configured, no table yet. */
    constructor (codec: Codec)
      ensures this.codec == codec && !running && config == None && clients == map[] && log == []
      ensures Valid()
    {
      this.codec := codec;
      running := false;
      config := None;
      clients := map[];
      log := [];
    }

    /** Config: configuring a running service is fatal. */
    method Config(config: Config)
      requires !running
      modifies this`config
      ensures this.config == Some(config)
    {
      this.config := Some(config);
    }

    /** verifyRunning: a service that is not running is fatal. */
    method VerifyRunning(errMsg: string)
      requires running
    {
    }

    /** `msg.JSON()` succeeds; a failure is fatal wherever a message is serialized. */
    predicate Encodable(m: Msg)
    {
      codec.marshal(m).Some?
    }

    /**
     * Start: starting a running service is fatal, and so is starting one never configured (the
     * address is read through the configuration pointer). Resets the table, starts the TCP server
     * and the heartbeat monitor (neither reports an error back) and sets the sentinel.
     */
    method Start()
      requires !running && config.Some?
      modifies this`clients, this`log, this`running
      ensures running && clients == map[] && Valid()
      ensures log == old(log) + [ListenerStart(config.value.tcpAddr), MonitorStarted]
    {
      clients := map[];
      log := log + [ListenerStart(config.value.tcpAddr), MonitorStarted];
      running := true;
    }

    /**
     * Stop: stopping a service that is not running is fatal. Sends the kill signal, waits for the
     * monitor's acknowledgement, stops the TCP server and clears the sentinel. The table is kept.
     */
    method Stop()
      requires Valid() && running
      modifies this`log, this`running
      ensures log == old(log) + [HbKill, HbStopped, ListenerStop]
      ensures !running
    {
      log := log + [HbKill];
      var _ := MonitorClientHeartbeats([Kill]);
      log := log + [ListenerStop];
      running := false;
    }

    /** OnNewClient: a fresh client for the connection, filed under its remote address. */
    method OnNewClient(conn: Conn, now: int) returns (client: Client)
      requires Valid()
      modifies this`clients
      ensures fresh(client) && client.tcpClient == conn
      ensures !client.authenticated && client.username == DefaultUsername && client.lastMsg == now
      ensures clients == old(clients)[conn.remoteAddr := client]
      ensures Valid()
    {
      client := new Client(conn, now);
      clients := clients[conn.remoteAddr := client];
    }

    /**
     * OnClientConnectionClosed: the entry is read (for its log prefix) before it is deleted, so
     * the address must be in the table; every other entry is untouched.
     */
    method OnClientConnectionClosed(conn: Conn)
      requires Valid() && conn.remoteAddr in clients
      modifies this`clients
      ensures clients == old(clients) - {conn.remoteAddr}
      ensures forall a :: a != conn.remoteAddr && a in old(clients) ==> a in clients && clients[a] == old(clients)[a]
      ensures Valid()
    {
      clients := clients - {conn.remoteAddr};
    }

    /**
     * OnNewMessage: the sender's last-message time is refreshed first; trailing line feeds are
     * stripped; an undecodable frame is dropped; a decoded message is dispatched, and a dispatch
     * error (no handler, or the handler's own error) closes the sender's connection. The entry is
     * dereferenced without a check, so the address must be in the table.
     */
    method OnNewMessage(conn: Conn, frame: string, now: int, handlers: LegacyMsgHandlers.MessageHandlerService,
                        outcomes: HandlerId -> Option<string>)
      requires Valid() && conn.remoteAddr in clients
      modifies this`log, clients[conn.remoteAddr]
      ensures clients == old(clients) && Valid()
      ensures clients[conn.remoteAddr].lastMsg == now
      ensures clients[conn.remoteAddr].authenticated == old(clients[conn.remoteAddr].authenticated)
      ensures clients[conn.remoteAddr].username == old(clients[conn.remoteAddr].username)
      ensures var m := codec.unmarshal(TrimNewlines(frame));
        log == old(log) + (if m.None? then [] else
          DispatchEvents(conn, handlers.ExecuteMsgHandler(clients[conn.remoteAddr], m.value, outcomes)))
    {
      var client := clients[conn.remoteAddr];
      client.UpdateLastMsgTimestamp(now);
      var msg := TrimNewlines(frame);
      var m := codec.unmarshal(msg);
      if m.None? {
        return;
      }
      var d := handlers.ExecuteMsgHandler(client, m.value, outcomes);
      if d.invoked.Some? {
        log := log + [Dispatched(conn, d.invoked.value)];
      }
      if d.err.Some? {
        log := log + [Close(conn)];
      }
    }

    /** SendMessage: the serialized message plus one line feed, to that client only; no sentinel check. */
    method SendMessage(client: Client, msg: Msg)
      requires Encodable(msg)
      modifies this`log
      ensures log == old(log) + [Send(client.tcpClient, Frame(codec.marshal(msg).value))]
    {
      var rawMsg := codec.marshal(msg).value;
      log := log + [Send(client.tcpClient, Frame(rawMsg))];
    }

    /** SendAllMessage / sendAllMessage: fatal unless running; the same framed bytes to every connection. */
    method SendAllMessage(msg: Msg)
      requires running && Encodable(msg)
      modifies this`log
      ensures log == old(log) + [SendAll(Frame(codec.marshal(msg).value))]
    {
      VerifyRunning("Cannot send message.");
      var rawMsg := codec.marshal(msg).value;
      log := log + [SendAll(Frame(rawMsg))];
    }

    /** The events of one kick: the notice to everybody, then the victim's connection closed. */
    function KickEvents(conn: Conn, username: string, reason: string): (r: seq<Event>)
      requires Encodable(KickNotice(username, reason))
      ensures |r| == 2 && KickOnly(r)
      ensures r[0].SendAll? && r[1] == Close(conn)
    {
      [SendAll(Frame(codec.marshal(KickNotice(username, reason)).value)), Close(conn)]
    }

    /** kick: broadcasts the notice first (which demands a running service), then closes the connection. */
    method Kick(client: Client, reason: string)
      requires running && Encodable(KickNotice(client.username, reason))
      modifies this`log
      ensures log == old(log) + KickEvents(client.tcpClient, client.username, reason)
    {
      var msg := KickNotice(client.username, reason);
      SendAllMessage(msg);
      log := log + [Close(client.tcpClient)];
    }

    /** The connection, name and last-message time of every registered client, as they stand now. */
    ghost function Roster(): (r: map<string, Peer>)
      reads this`clients, clients.Values
      ensures r.Keys == clients.Keys
      ensures forall id :: id in r ==> r[id] == Peer(clients[id].tcpClient, clients[id].username, clients[id].lastMsg)
    {
      map a | a in clients :: Peer(clients[a].tcpClient, clients[a].username, clients[a].lastMsg)
    }

    /** `id` is in `roster` and its kick notice can be serialized. */
    predicate Notifiable(roster: map<string, Peer>, id: string)
    {
      id in roster && Encodable(KickNotice(roster[id].username, KickReason))
    }

    /** Every listed client is in `roster` and its kick notice can be serialized. */
    predicate AllNotifiable(roster: map<string, Peer>, ids: seq<string>)
    {
      forall i :: 0 <= i < |ids| ==> Notifiable(roster, ids[i])
    }

    /** The notices a sweep at `now` will broadcast can all be serialized. */
    predicate SweepSafe(roster: map<string, Peer>, now: int)
    {
      forall id :: id in roster && TimedOut(roster[id].lastMsg, now) ==> Notifiable(roster, id)
    }

    /**
     * `kicked` is what a sweep of `roster` at `now` kicks: every client whose last message is
     * strictly before the cutoff, each exactly once, and no other.
     */
    ghost predicate SweptAt(roster: map<string, Peer>, kicked: seq<string>, now: int)
    {
      && (forall i, j :: 0 <= i < j < |kicked| ==> kicked[i] != kicked[j])
      && (forall id :: id in kicked <==> id in roster && TimedOut(roster[id].lastMsg, now))
    }

    /** The events of kicking the listed clients of `roster`, in that order. */
    function SweepOf(roster: map<string, Peer>, ids: seq<string>): (r: seq<Event>)
      requires AllNotifiable(roster, ids)
      ensures |r| == 2 * |ids| && KickOnly(r)
    {
      if ids == [] then [] else
        var last := ids[|ids| - 1];
        assert Notifiable(roster, last);
        SweepOf(roster, ids[..|ids| - 1]) + KickEvents(roster[last].conn, roster[last].username, KickReason)
    }

    /** Kicking one more client appends that client's kick events, after whatever came before. */
    lemma SweepOfSnocAfter(start: seq<Event>, roster: map<string, Peer>, ids: seq<string>, id: string)
      requires AllNotifiable(roster, ids) && Notifiable(roster, id)
      ensures start + SweepOf(roster, ids) + KickEvents(roster[id].conn, roster[id].username, KickReason) ==
        start + SweepOf(roster, ids + [id])
    {
      assert (ids + [id])[..|ids|] == ids;
    }

    /** The events of a series of sweeps of `roster`, given the clients each one kicked, in order. */
    function Sweeps(roster: map<string, Peer>, rounds: seq<seq<string>>): (r: seq<Event>)
      requires forall k :: 0 <= k < |rounds| ==> AllNotifiable(roster, rounds[k])
      ensures KickOnly(r)
    {
      if rounds == [] then [] else
        var last := rounds[|rounds| - 1];
        assert AllNotifiable(roster, last);
        Sweeps(roster, rounds[..|rounds| - 1]) + SweepOf(roster, last)
    }

    /** One more sweep appends its events, after whatever came before. */
    lemma SweepsSnocAfter(start: seq<Event>, roster: map<string, Peer>, rounds: seq<seq<string>>, kicked: seq<string>)
      requires forall k :: 0 <= k < |rounds| ==> AllNotifiable(roster, rounds[k])
      requires AllNotifiable(roster, kicked)
      ensures start + Sweeps(roster, rounds) + SweepOf(roster, kicked) == start + Sweeps(roster, rounds + [kicked])
    {
      assert (rounds + [kicked])[..|rounds|] == rounds;
    }

    /**
     * One iteration of the sweep: kicks the client filed under `addr` if it has timed out. `peer`
     * is that client's entry in a snapshot of the table.
     */
    method KickIfTimedOut(addr: string, now: int, ghost peer: Peer) returns (timedOut: bool)
      requires running
      requires addr in clients && peer == Peer(clients[addr].tcpClient, clients[addr].username, clients[addr].lastMsg)
      requires TimedOut(peer.lastMsg, now) ==> Encodable(KickNotice(peer.username, KickReason))
      modifies this`log
      ensures timedOut == TimedOut(peer.lastMsg, now)
      ensures log == old(log) + if timedOut then KickEvents(peer.conn, peer.username, KickReason) else []
    {
      var client := clients[addr];
      timedOut := client.lastMsg < now - HeartbeatTimeout;
      if timedOut {
        Kick(client, KickReason);
      }
    }

    /**
     * kickTimedOutClients: walks the table in whatever order the map yields and kicks exactly the
     * clients whose last message is strictly before now - 60 s, each once; the table itself is
     * not changed.
     */
    method KickTimedOutClients(now: int) returns (ghost kicked: seq<string>)
      requires Valid() && running && SweepSafe(Roster(), now)
      modifies this`log
      ensures Roster() == old(Roster())
      ensures SweptAt(Roster(), kicked, now) && AllNotifiable(Roster(), kicked)
      ensures log == old(log) + SweepOf(Roster(), kicked)
    {
      kicked := [];
      ghost var roster := Roster();
      ghost var stale := set a | a in roster && TimedOut(roster[a].lastMsg, now);
      var remaining := clients.Keys;
      while remaining != {}
        invariant remaining <= roster.Keys && Tally(stale, remaining, kicked)
        invariant log == old(log) + SweepOf(roster, kicked)
        decreases remaining
      {
        var addr := NextKey(remaining);
        var timedOut := KickIfTimedOut(addr, now, roster[addr]);
        TallyStep(stale, remaining, kicked, addr);
        if timedOut {
          SweepOfSnocAfter(old(log), roster, kicked, addr);
          kicked := kicked + [addr];
        } else {
          assert log == old(log) + SweepOf(roster, kicked) + [];
        }
        remaining := remaining - {addr};
      }
      assert Roster() == roster;
    }

    /**
     * `rounds` lists what each of the first |rounds| wake-ups swept: each of them is a timer
     * wake-up, and its sweep of `roster` kicked exactly the clients stale at that time.
     */
    ghost predicate SweptRounds(roster: map<string, Peer>, wakes: seq<Wake>, rounds: seq<seq<string>>)
    {
      && |rounds| <= |wakes|
      && forall k :: 0 <= k < |rounds| ==>
        wakes[k].Tick? && SweptAt(roster, rounds[k], wakes[k].now) && AllNotifiable(roster, rounds[k])
    }

    /** A sweep at the next timer wake-up extends the record. */
    lemma SweptRoundsSnoc(roster: map<string, Peer>, wakes: seq<Wake>, rounds: seq<seq<string>>, kicked: seq<string>)
      requires SweptRounds(roster, wakes, rounds) && |rounds| < |wakes| && wakes[|rounds|].Tick?
      requires SweptAt(roster, kicked, wakes[|rounds|].now) && AllNotifiable(roster, kicked)
      ensures SweptRounds(roster, wakes, rounds + [kicked])
    {
    }

    /**
     * monitorClientHeartbeats: loops on the `monitor` flag; each wake-up is either the stop
     * signal, which ends the loop, or the 60 s timer, which sweeps the table at that time. Only
     * after leaving the loop does it report done. `wakes` is the schedule of wake-ups; the stop
     * signal is among them (otherwise the loop would never end). `rounds` lists the clients each
     * sweep kicked: one sweep per timer wake-up before the first stop signal.
     */
    method MonitorClientHeartbeats(wakes: seq<Wake>) returns (ghost rounds: seq<seq<string>>)
      requires Valid() && running && Kill in wakes
      requires forall i :: 0 <= i < FirstKill(wakes) && wakes[i].Tick? ==> SweepSafe(Roster(), wakes[i].now)
      modifies this`log
      ensures Roster() == old(Roster())
      ensures |rounds| == FirstKill(wakes)
      ensures SweptRounds(Roster(), wakes, rounds)
      ensures log == old(log) + Sweeps(Roster(), rounds) + [HbStopped]
    {
      ghost var roster := Roster();
      var monitor := true;
      var i := 0;
      rounds := [];
      while monitor
        invariant 0 <= i <= |wakes|
        invariant monitor ==> i <= FirstKill(wakes) && |rounds| == i
        invariant !monitor ==> i == FirstKill(wakes) + 1 && |rounds| == i - 1
        invariant Valid() && Roster() == roster
        invariant SweptRounds(roster, wakes, rounds)
        invariant log == old(log) + Sweeps(roster, rounds)
        decreases |wakes| - i
      {
        match wakes[i] {
          case Kill =>
            monitor := false;
          case Tick(now) =>
            ghost var kicked := KickTimedOutClients(now);
            SweptRoundsSnoc(roster, wakes, rounds, kicked);
            SweepsSnocAfter(old(log), roster, rounds, kicked);
            rounds := rounds + [kicked];
        }
        i := i + 1;
      }
      log := log + [HbStopped];
      assert Roster() == roster;
    }
  }
}

/**
 * The game server service of the newer revision (services/gameserverservice): a client table keyed
 * by connection ID, the transport's three event callbacks, unicast and broadcast sends, kicks, the
 * heartbeat monitor and its sweep, and start/stop sequencing. Dispatch errors are only logged.
 */
module GameServer {
  import opened Wrappers
  import opened Envelope
  import opened Framing
  import opened Dispatching
  import opened Transport
  import opened Clients
  import opened Liveness
  import MsgHandlers

  datatype Config = Config(tcpAddr: string, clientHeartbeatTimeoutSecs: int)

  /** The chat line broadcast before a client is kicked. */
  function KickNotice(username: string, reason: string): (m: Msg)
    ensures m.key == "Chat"
    ensures m.data == Chat("Server", "Kicking player " + username + ". (Reason: " + reason + ")", ChatColDef)
  {
    CreateMsg(Chat("Server", "Kicking player " + username + ". (Reason: " + reason + ")", ChatColDef))
  }

  /** The events a dispatch produces: the invoked callback, if any. Errors are only logged. */
  function DispatchEvents(conn: Conn, d: Dispatch): (r: seq<Event>)
    ensures d.invoked.Some? ==> r == [Dispatched(conn, d.invoked.value)]
    ensures forall e :: e in r ==> e.Dispatched?
    ensures r != [] <==> d.invoked.Some?
  {
    if d.invoked.Some? then [Dispatched(conn, d.invoked.value)] else []
  }

  class GameServerService {
    /** encoding/json, foreign to the model. */
    const codec: Codec
    var config: Option<Config>
    var clients: map<int, Client>
    /**
     * How many heartbeat monitors have been launched and not yet stopped: nothing stops `Start`
     * from launching another while one is still running.
     */
    var monitors: nat
    /** Everything handed to the transport or exchanged with the monitor, in order. */
    var log: seq<Event>

    /** Every client is filed under its own connection ID. */
    ghost predicate Valid()
      reads this`clients
    {
      forall id :: id in clients ==> clients[id].tcpClient.id == id
    }

    /** `Instance()`. */
    constructor (codec: Codec)
      ensures this.codec == codec && config == None && clients == map[]
      ensures monitors == 0 && log == []
      ensures Valid()
    {
      this.codec := codec;
      config := None;
      clients := map[];
      monitors := 0;
      log := [];
    }

    /** Stores the configuration; the source leaves it to the caller not to do so while running. */
    method Config(config: Config)
      modifies this`config
      ensures this.config == Some(config)
    {
      this.config := Some(config);
    }

    /** `msg.JSON()` succeeds; a failure is fatal wherever a message is serialized. */
    predicate Encodable(m: Msg)
    {
      codec.marshal(m).Some?
    }

    /**
     * Start: resets the client table and starts the TCP server, whose start-up error is
     * `tcpStartErr`; only when that succeeds is the heartbeat monitor launched.
     */
    method Start(tcpStartErr: Option<string>) returns (err: Option<string>)
      requires config.Some?
      modifies this`clients, this`log, this`monitors
      ensures clients == map[] && Valid()
      ensures err == tcpStartErr
      ensures err.None? ==> log == old(log) + [ListenerStart(config.value.tcpAddr), MonitorStarted]
      ensures err.None? ==> monitors == old(monitors) + 1
      ensures err.Some? ==> log == old(log) + [ListenerStart(config.value.tcpAddr)]
      ensures err.Some? ==> monitors == old(monitors)
    {
      clients := map[];
      log := log + [ListenerStart(config.value.tcpAddr)];
      if tcpStartErr.Some? {
        return tcpStartErr;
      }
      log := log + [MonitorStarted];
      monitors := monitors + 1;
      err := None;
    }

    /**
     * Stop: sends the kill signal, waits for the monitor to leave its loop and acknowledge, and
     * only then stops the TCP server, whose error is `tcpStopErr`.
     */
    method Stop(tcpStopErr: Option<string>) returns (err: Option<string>)
      requires Valid() && monitors > 0
      modifies this`log, this`monitors
      ensures log == old(log) + [HbKill, HbStopped, ListenerStop]
      ensures monitors == old(monitors) - 1 && err == tcpStopErr
    {
      log := log + [HbKill];
      var _ := MonitorClientHeartbeats([Kill]);
      log := log + [ListenerStop];
      err := tcpStopErr;
    }

    /** addClient: files the client under its connection ID, replacing any earlier entry. */
    method AddClient(client: Client)
      requires Valid()
      modifies this`clients
      ensures clients == old(clients)[client.tcpClient.id := client]
      ensures Valid()
    {
      clients := clients[client.tcpClient.id := client];
    }

    /** forgetClient: removes the ID if present; every other entry is untouched. */
    method ForgetClient(id: int)
      requires Valid()
      modifies this`clients
      ensures clients == old(clients) - {id}
      ensures id !in clients
      ensures forall k :: k != id && k in old(clients) ==> k in clients && clients[k] == old(clients)[k]
      ensures Valid()
    {
      clients := clients - {id};
    }

    /** OnNewClient: a fresh client for the connection, filed under its ID. */
    method OnNewClient(conn: Conn, now: int) returns (client: Client)
      requires Valid()
      modifies this`clients
      ensures fresh(client) && client.tcpClient == conn
      ensures !client.authenticated && client.username == DefaultUsername && client.lastMsg == now
      ensures clients == old(clients)[conn.id := client]
      ensures Valid()
    {
      client := new Client(conn, now);
      AddClient(client);
    }

    /** OnClientConnectionClosed: forgets the connection's ID. */
    method OnClientConnectionClosed(conn: Conn)
      requires Valid()
      modifies this`clients
      ensures clients == old(clients) - {conn.id}
      ensures Valid()
    {
      ForgetClient(conn.id);
    }

    /**
     * OnNewMessage: the sender's last-message time is refreshed first, so even an undecodable
     * frame counts as liveness; trailing line feeds are stripped; an undecodable frame is dropped;
     * a decoded message is dispatched, and a dispatch error is only logged: the connection is
     * never closed here. The transport guarantees the connection is already in the table (the
     * source dereferences the entry without checking).
     */
    method OnNewMessage(conn: Conn, frame: string, now: int, handlers: MsgHandlers.MsgHandlerService,
                        outcomes: HandlerId -> Option<string>)
      requires Valid() && conn.id in clients
      modifies this`log, clients[conn.id]
      ensures clients == old(clients) && Valid()
      ensures clients[conn.id].lastMsg == now
      ensures clients[conn.id].authenticated == old(clients[conn.id].authenticated)
      ensures clients[conn.id].username == old(clients[conn.id].username)
      ensures var m := codec.unmarshal(TrimNewlines(frame));
        log == old(log) + (if m.None? then [] else
          DispatchEvents(conn, handlers.ExecuteMsgHandler(clients[conn.id], m.value, outcomes)))
      ensures forall e :: e in log[|old(log)|..] ==> e.Dispatched?
    {
      var client := clients[conn.id];
      client.UpdateLastMsgTimestamp(now);
      var msg := TrimNewlines(frame);
      var m := codec.unmarshal(msg);
      if m.None? {
        return;
      }
      var d := handlers.ExecuteMsgHandler(client, m.value, outcomes);
      if d.invoked.Some? {
        log := log + [Dispatched(conn, d.invoked.value)];
      }
    }

    /** SendMessage: the serialized message plus one line feed, to that client only. */
    method SendMessage(client: Client, msg: Msg)
      requires Encodable(msg)
      modifies this`log
      ensures log == old(log) + [Send(client.tcpClient, Frame(codec.marshal(msg).value))]
    {
      var rawMsg := codec.marshal(msg).value;
      log := log + [Send(client.tcpClient, Frame(rawMsg))];
    }

    /** SendAllMessage / sendAllMessage: the same framed bytes to every connection of the server. */
    method SendAllMessage(msg: Msg)
      requires Encodable(msg)
      modifies this`log
      ensures log == old(log) + [SendAll(Frame(codec.marshal(msg).value))]
    {
      var rawMsg := codec.marshal(msg).value;
      log := log + [SendAll(Frame(rawMsg))];
    }

    /** The events of one kick: the notice to everybody, then the victim's connection closed. */
    function KickEvents(conn: Conn, username: string, reason: string): (r: seq<Event>)
      requires Encodable(KickNotice(username, reason))
      ensures |r| == 2 && KickOnly(r)
      ensures r[0].SendAll? && r[1] == Close(conn)
    {
      [SendAll(Frame(codec.marshal(KickNotice(username, reason)).value)), Close(conn)]
    }

    /** kick: broadcasts the notice first and only then closes the victim's connection. */
    method Kick(client: Client, reason: string)
      requires Encodable(KickNotice(client.username, reason))
      modifies this`log
      ensures log == old(log) + KickEvents(client.tcpClient, client.username, reason)
    {
      var msg := KickNotice(client.username, reason);
      SendAllMessage(msg);
      log := log + [Close(client.tcpClient)];
    }

    /** The connection, name and last-message time of every registered client, as they stand now. */
    ghost function Roster(): (r: map<int, Peer>)
      reads this`clients, clients.Values
      ensures r.Keys == clients.Keys
      ensures forall id :: id in r ==> r[id] == Peer(clients[id].tcpClient, clients[id].username, clients[id].lastMsg)
    {
      map id | id in clients :: Peer(clients[id].tcpClient, clients[id].username, clients[id].lastMsg)
    }

    /** `id` is in `roster` and its kick notice can be serialized. */
    predicate Notifiable(roster: map<int, Peer>, id: int)
    {
      id in roster && Encodable(KickNotice(roster[id].username, KickReason))
    }

    /** Every listed client is in `roster` and its kick notice can be serialized. */
    predicate AllNotifiable(roster: map<int, Peer>, ids: seq<int>)
    {
      forall i :: 0 <= i < |ids| ==> Notifiable(roster, ids[i])
    }

    /** The notices a sweep at `now` will broadcast can all be serialized. */
    predicate SweepSafe(roster: map<int, Peer>, now: int)
    {
      forall id :: id in roster && TimedOut(roster[id].lastMsg, now) ==> Notifiable(roster, id)
    }

    /**
     * `kicked` is what a sweep of `roster` at `now` kicks: every client whose last message is
     * strictly before the cutoff, each exactly once, and no other.
     */
    ghost predicate SweptAt(roster: map<int, Peer>, kicked: seq<int>, now: int)
    {
      && (forall i, j :: 0 <= i < j < |kicked| ==> kicked[i] != kicked[j])
      && (forall id :: id in kicked <==> id in roster && TimedOut(roster[id].lastMsg, now))
    }

    /** The events of kicking the listed clients of `roster`, in that order. */
    function SweepOf(roster: map<int, Peer>, ids: seq<int>): (r: seq<Event>)
      requires AllNotifiable(roster, ids)
      ensures |r| == 2 * |ids| && KickOnly(r)
    {
      if ids == [] then [] else
        var last := ids[|ids| - 1];
        assert Notifiable(roster, last);
        SweepOf(roster, ids[..|ids| - 1]) + KickEvents(roster[last].conn, roster[last].username, KickReason)
    }

    /** Kicking one more client appends that client's kick events, after whatever came before. */
    lemma SweepOfSnocAfter(start: seq<Event>, roster: map<int, Peer>, ids: seq<int>, id: int)
      requires AllNotifiable(roster, ids) && Notifiable(roster, id)
      ensures start + SweepOf(roster, ids) + KickEvents(roster[id].conn, roster[id].username, KickReason) ==
        start + SweepOf(roster, ids + [id])
    {
      assert (ids + [id])[..|ids|] == ids;
    }

    /** The events of a series of sweeps of `roster`, given the clients each one kicked, in order. */
    function Sweeps(roster: map<int, Peer>, rounds: seq<seq<int>>): (r: seq<Event>)
      requires forall k :: 0 <= k < |rounds| ==> AllNotifiable(roster, rounds[k])
      ensures KickOnly(r)
    {
      if rounds == [] then [] else
        var last := rounds[|rounds| - 1];
        assert AllNotifiable(roster, last);
        Sweeps(roster, rounds[..|rounds| - 1]) + SweepOf(roster, last)
    }

    /** One more sweep appends its events, after whatever came before. */
    lemma SweepsSnocAfter(start: seq<Event>, roster: map<int, Peer>, rounds: seq<seq<int>>, kicked: seq<int>)
      requires forall k :: 0 <= k < |rounds| ==> AllNotifiable(roster, rounds[k])
      requires AllNotifiable(roster, kicked)
      ensures start + Sweeps(roster, rounds) + SweepOf(roster, kicked) == start + Sweeps(roster, rounds + [kicked])
    {
      assert (rounds + [kicked])[..|rounds|] == rounds;
    }

    /**
     * One iteration of the sweep: kicks the client filed under `id` if it has timed out. `peer`
     * is that client's entry in a snapshot of the table.
     */
    method KickIfTimedOut(id: int, now: int, ghost peer: Peer) returns (timedOut: bool)
      requires id in clients && peer == Peer(clients[id].tcpClient, clients[id].username, clients[id].lastMsg)
      requires TimedOut(peer.lastMsg, now) ==> Encodable(KickNotice(peer.username, KickReason))
      modifies this`log
      ensures timedOut == TimedOut(peer.lastMsg, now)
      ensures log == old(log) + if timedOut then KickEvents(peer.conn, peer.username, KickReason) else []
    {
      var client := clients[id];
      timedOut := client.lastMsg < now - HeartbeatTimeout;
      if timedOut {
        Kick(client, KickReason);
      }
    }

    /**
     * kickTimedOutClients: walks the table in whatever order the map yields and kicks exactly the
     * clients whose last message is strictly before now - 60 s, each once; the table itself is
     * not changed (removal happens when the transport reports the closed connection).
     */
    method KickTimedOutClients(now: int) returns (ghost kicked: seq<int>)
      requires Valid() && SweepSafe(Roster(), now)
      modifies this`log
      ensures Roster() == old(Roster())
      ensures SweptAt(Roster(), kicked, now) && AllNotifiable(Roster(), kicked)
      ensures log == old(log) + SweepOf(Roster(), kicked)
    {
      kicked := [];
      ghost var roster := Roster();
      ghost var stale := set id | id in roster && TimedOut(roster[id].lastMsg, now);
      var remaining := clients.Keys;
      while remaining != {}
        invariant remaining <= roster.Keys && Tally(stale, remaining, kicked)
        invariant log == old(log) + SweepOf(roster, kicked)
        decreases remaining
      {
        var id := NextKey(remaining);
        var timedOut := KickIfTimedOut(id, now, roster[id]);
        TallyStep(stale, remaining, kicked, id);
        if timedOut {
          SweepOfSnocAfter(old(log), roster, kicked, id);
          kicked := kicked + [id];
        } else {
          assert log == old(log) + SweepOf(roster, kicked) + [];
        }
        remaining := remaining - {id};
      }
      assert Roster() == roster;
    }

    /**
     * `rounds` lists what each of the first |rounds| wake-ups swept: each of them is a timer
     * wake-up, and its sweep of `roster` kicked exactly the clients stale at that time.
     */
    ghost predicate SweptRounds(roster: map<int, Peer>, wakes: seq<Wake>, rounds: seq<seq<int>>)
    {
      && |rounds| <= |wakes|
      && forall k :: 0 <= k < |rounds| ==>
        wakes[k].Tick? && SweptAt(roster, rounds[k], wakes[k].now) && AllNotifiable(roster, rounds[k])
    }

    /** A sweep at the next timer wake-up extends the record. */
    lemma SweptRoundsSnoc(roster: map<int, Peer>, wakes: seq<Wake>, rounds: seq<seq<int>>, kicked: seq<int>)
      requires SweptRounds(roster, wakes, rounds) && |rounds| < |wakes| && wakes[|rounds|].Tick?
      requires SweptAt(roster, kicked, wakes[|rounds|].now) && AllNotifiable(roster, kicked)
      ensures SweptRounds(roster, wakes, rounds + [kicked])
    {
    }

    /**
     * monitorClientHeartbeats: loops on the `cont` flag; each wake-up is either the kill signal,
     * which ends the loop, or the 60 s timer, which sweeps the table at that time. Only after
     * leaving the loop does it acknowledge that it has stopped. `wakes` is the schedule of
     * wake-ups; the kill signal is among them (otherwise the loop would never end). `rounds`
     * lists the clients each sweep kicked: one sweep per timer wake-up before the first kill.
     */
    method MonitorClientHeartbeats(wakes: seq<Wake>) returns (ghost rounds: seq<seq<int>>)
      requires Valid() && monitors > 0 && Kill in wakes
      requires forall i :: 0 <= i < FirstKill(wakes) && wakes[i].Tick? ==> SweepSafe(Roster(), wakes[i].now)
      modifies this`log, this`monitors
      ensures monitors == old(monitors) - 1
      ensures Roster() == old(Roster())
      ensures |rounds| == FirstKill(wakes)
      ensures SweptRounds(Roster(), wakes, rounds)
      ensures log == old(log) + Sweeps(Roster(), rounds) + [HbStopped]
    {
      ghost var roster := Roster();
      var cont := true;
      var i := 0;
      rounds := [];
      while cont
        invariant 0 <= i <= |wakes|
        invariant cont ==> i <= FirstKill(wakes) && |rounds| == i
        invariant !cont ==> i == FirstKill(wakes) + 1 && |rounds| == i - 1
        invariant Valid() && Roster() == roster && monitors == old(monitors)
        invariant SweptRounds(roster, wakes, rounds)
        invariant log == old(log) + Sweeps(roster, rounds)
        decreases |wakes| - i
      {
        match wakes[i] {
          case Kill =>
            cont := false;
          case Tick(now) =>
            ghost var kicked := KickTimedOutClients(now);
            SweptRoundsSnoc(roster, wakes, rounds, kicked);
            SweepsSnocAfter(old(log), roster, rounds, kicked);
            rounds := rounds + [kicked];
        }
        i := i + 1;
      }
      monitors := monitors - 1;
      log := log + [HbStopped];
      assert Roster() == roster;
    }
  }
}

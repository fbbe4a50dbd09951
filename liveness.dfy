/**
 * The heartbeat policy shared by both revisions of the game server service: a client whose last
 * message is strictly older than a fixed 60 seconds is kicked by the next sweep.
 */
module Liveness {
  import opened Transport

  /** Time is counted in nanoseconds, the resolution of Go's time.Time. */
  const Second: int := 1_000_000_000

  /** Hard-coded `60 * time.Second`; Config.ClientHeartbeatTimeoutSecs is never consulted. */
  const HeartbeatTimeout: int := 60 * Second

  /** The reason given when the sweep kicks a client (spelled as in the source). */
  const KickReason := "no message recieved in the last minute"

  /**
   * `client.LastMsgTimestamp().Before(now.Add(-60 * time.Second))`: the client has been silent
   * for strictly longer than the heartbeat timeout.
   */
  predicate TimedOut(lastMsg: int, now: int): (r: bool)
    ensures r <==> now - lastMsg > HeartbeatTimeout
  {
    lastMsg < now - HeartbeatTimeout
  }

  /** The sweep's cutoff is strict: 61 s of silence is kicked, exactly 60 s or 30 s is not. */
  lemma CutoffIsStrict(now: int)
    ensures TimedOut(now - 61 * Second, now)
    ensures !TimedOut(now - HeartbeatTimeout, now)
    ensures !TimedOut(now - 30 * Second, now)
  {
  }

  /** A snapshot of one registered client as a sweep reads it: connection, display name, last-message time. */
  datatype Peer = Peer(conn: Conn, username: string, lastMsg: int)

  /** What wakes the heartbeat monitor's `select`: the kill signal, or the 60 s timer at `now`. */
  datatype Wake = Kill | Tick(now: int)

  /** The position of the first kill signal in a schedule of wake-ups. */
  function FirstKill(wakes: seq<Wake>): (i: nat)
    requires Kill in wakes
    ensures i < |wakes| && wakes[i] == Kill && Kill !in wakes[..i]
  {
    if wakes[0] == Kill then 0 else
      assert wakes == [wakes[0]] + wakes[1..];
      1 + FirstKill(wakes[1..])
  }

  /**
   * One step of Go's `for _, client := range table`: some key not yet visited, in an order the
   * language leaves unspecified.
   */
  method NextKey<K>(keys: set<K>) returns (k: K)
    requires keys != {}
    ensures k in keys
  {
    k :| k in keys;
  }

  /**
   * Book-keeping of a sweep: `kicked` lists, without repeats, exactly the stale keys that have
   * already been visited (those no longer in `remaining`).
   */
  ghost predicate Tally<K>(stale: set<K>, remaining: set<K>, kicked: seq<K>)
  {
    (forall i :: 0 <= i < |kicked| ==> kicked[i] in stale && kicked[i] !in remaining) &&
    (forall id :: id in stale && id !in remaining ==> id in kicked) &&
    (forall i, j :: 0 <= i < j < |kicked| ==> kicked[i] != kicked[j])
  }

  /** Visiting one more key keeps the tally, appending the key exactly when it is stale. */
  lemma TallyStep<K>(stale: set<K>, remaining: set<K>, kicked: seq<K>, id: K)
    requires Tally(stale, remaining, kicked) && id in remaining
    ensures Tally(stale, remaining - {id}, if id in stale then kicked + [id] else kicked)
  {
  }
}

/** The per-connection client record of models/client.go. */
module Clients {
  import opened Transport

  const DefaultUsername := "Unknown"

  /**
   * A connected player. Time is an integer number of nanoseconds supplied by the caller in
   * place of `time.Now()`.
   */
  class Client {
    const tcpClient: Conn
    var authenticated: bool
    var username: string
    var lastMsg: int

    /** CreateClient: not authenticated, username "Unknown", last message at creation time. */
    constructor (tcpClient: Conn, now: int)
      ensures this.tcpClient == tcpClient
      ensures !authenticated && username == DefaultUsername && lastMsg == now
    {
      this.tcpClient := tcpClient;
      authenticated := false;
      username := DefaultUsername;
      lastMsg := now;
    }

    function TCPClient(): Conn
    {
      tcpClient
    }

    function Username(): string
      reads this
    {
      username
    }

    function LastMsgTimestamp(): int
      reads this
    {
      lastMsg
    }

    /** Sets the last-message time to now; no other field may change. */
    method UpdateLastMsgTimestamp(now: int)
      modifies this`lastMsg
      ensures lastMsg == now
    {
      lastMsg := now;
    }
  }

  /**
   * The last-message time after creation at `created` and one update per clock reading: always
   * one of those times (each update overwrites it, nothing else writes it).
   */
  function LastMsgAfter(created: int, readings: seq<int>): (t: int)
    ensures t in [created] + readings
  {
    if readings == [] then created else readings[|readings| - 1]
  }

  ghost predicate NonDecreasing(s: seq<int>)
  {
    forall i, j :: 0 <= i <= j < |s| ==> s[i] <= s[j]
  }

  /** Under a clock that never goes back, the last-message time never decreases. */
  lemma LastMsgNeverDecreases(created: int, readings: seq<int>, i: nat, j: nat)
    requires NonDecreasing([created] + readings)
    requires i <= j <= |readings|
    ensures LastMsgAfter(created, readings[..i]) <= LastMsgAfter(created, readings[..j])
  {
    var clock := [created] + readings;
    assert LastMsgAfter(created, readings[..i]) == clock[i];
    assert LastMsgAfter(created, readings[..j]) == clock[j];
  }

  /**
   * A client receiving one message per clock reading: each message refreshes the last-message
   * time in place. `seen` is that time after each message. It follows the readings, and under a
   * clock that never goes back it never decreases.
   */
  method ReceiveMessages(c: Client, readings: seq<int>) returns (seen: seq<int>)
    modifies c`lastMsg
    ensures c.lastMsg == LastMsgAfter(old(c.lastMsg), readings)
    ensures |seen| == |readings|
    ensures forall k :: 0 <= k < |seen| ==> seen[k] == LastMsgAfter(old(c.lastMsg), readings[..k + 1])
    ensures NonDecreasing([old(c.lastMsg)] + readings) ==> NonDecreasing(seen)
  {
    ghost var created := c.lastMsg;
    seen := [];
    var k := 0;
    while k < |readings|
      invariant 0 <= k <= |readings| && |seen| == k
      invariant c.lastMsg == LastMsgAfter(created, readings[..k])
      invariant forall i :: 0 <= i < k ==> seen[i] == LastMsgAfter(created, readings[..i + 1])
    {
      c.UpdateLastMsgTimestamp(readings[k]);
      seen := seen + [c.lastMsg];
      k := k + 1;
    }
    assert readings[..k] == readings;
    if NonDecreasing([created] + readings) {
      forall i, j | 0 <= i <= j < |seen|
        ensures seen[i] <= seen[j]
      {
        LastMsgNeverDecreases(created, readings, i + 1, j + 1);
      }
    }
  }
}

/**
 * Line framing of the game protocol (services/gameserverservice/gameserverservice.go and its
 * older twin): an outbound message is its JSON text followed by one line feed; an inbound frame
 * has its trailing line feeds stripped (`strings.TrimRight(msg, "\n")`) before decoding.
 */
module Framing {
  import opened Wrappers
  import opened Envelope

  const Delimiter: char := '\n'

  /** `append(rawMsg, '\n')`. */
  function Frame(json: string): (f: string)
    ensures |f| == |json| + 1 && f[..|json|] == json && f[|json|] == Delimiter
  {
    json + [Delimiter]
  }

  /**
   * `strings.TrimRight(s, "\n")`: the longest prefix of `s` that does not end in a line feed
   * and after which only line feeds follow.
   */
  function TrimNewlines(s: string): (r: string)
    ensures r <= s
    ensures r == [] || r[|r| - 1] != Delimiter
    ensures forall i :: |r| <= i < |s| ==> s[i] == Delimiter
    decreases |s|
  {
    if |s| > 0 && s[|s| - 1] == Delimiter then TrimNewlines(s[..|s| - 1]) else s
  }

  /** The three properties of TrimNewlines determine its result: it is a specification. */
  lemma {:induction false} TrimNewlinesUnique(s: string, r: string)
    requires r <= s
    requires r == [] || r[|r| - 1] != Delimiter
    requires forall i :: |r| <= i < |s| ==> s[i] == Delimiter
    ensures r == TrimNewlines(s)
  {
    var t := TrimNewlines(s);
    assert |r| == |t|;
    assert r == s[..|r|] && t == s[..|t|];
  }

  /** Stripping twice strips nothing more. */
  lemma TrimNewlinesIdempotent(s: string)
    ensures TrimNewlines(TrimNewlines(s)) == TrimNewlines(s)
  {
  }

  /** Stripping undoes framing for any text that does not itself end in a line feed. */
  lemma TrimFrame(json: string)
    requires json == [] || json[|json| - 1] != Delimiter
    ensures TrimNewlines(Frame(json)) == json
  {
    assert Frame(json)[..|json|] == json;
  }

  /** A frame built from JSON text carries exactly one line feed, its last character. */
  lemma FrameHasOneDelimiter(json: string)
    requires Delimiter !in json
    ensures forall i :: 0 <= i < |Frame(json)| ==> (Frame(json)[i] == Delimiter <==> i == |json|)
  {
    var f := Frame(json);
    forall i | 0 <= i < |f|
      ensures f[i] == Delimiter <==> i == |json|
    {
      if i < |json| {
        assert f[i] == json[i];
      }
    }
  }

  /**
   * End to end: a message framed by the sender and stripped and decoded by the receiver comes
   * back with the same key, so it routes to the same handler.
   */
  lemma FramedMessageDecodes(c: Codec, m: Msg)
    requires Lawful(c)
    requires c.marshal(m).Some?
    ensures c.unmarshal(TrimNewlines(Frame(c.marshal(m).value))).Some?
    ensures c.unmarshal(TrimNewlines(Frame(c.marshal(m).value))).value.key == m.key
  {
    var json := c.marshal(m).value;
    assert Delimiter !in json;
    assert json == [] || json[|json| - 1] in json;
    TrimFrame(json);
  }
}

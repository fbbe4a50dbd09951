/**
 * The message envelope of model/msg.go: a key naming the payload's type and the payload itself,
 * together with the payload types that messages are built from (model/chatmsg.go,
 * model/pingmsg.go and the matching types under models/msgmodels/).
 */
module Envelope {
  import opened Wrappers

  /** The default chat colour (model/chatmsg.go and models/msgmodels/chat.go both define it). */
  const ChatColDef := "default"

  /** The payload structs a message can carry, one constructor per Go struct type. */
  datatype Payload =
    | ChatMsg(author: string, content: string, color: string)   // model.ChatMsg
    | PingMsg(sentTime: int)                                     // model.PingMsg
    | Chat(author: string, content: string, color: string)      // msgmodels.Chat
    | Ping(sentTime: int)                                        // msgmodels.Ping
    | Auth(token: string)                                        // msgmodels.Auth
    | Disc(reason: string)                                       // msgmodels.Disc

  /** The Go struct types themselves, as reflection sees them. */
  datatype Kind = ChatMsgKind | PingMsgKind | ChatKind | PingKind | AuthKind | DiscKind

  /** The struct type of a payload: one kind per constructor. */
  function KindOf(p: Payload): (k: Kind)
    ensures p.ChatMsg? <==> k == ChatMsgKind
    ensures p.PingMsg? <==> k == PingMsgKind
    ensures p.Chat? <==> k == ChatKind
    ensures p.Ping? <==> k == PingKind
    ensures p.Auth? <==> k == AuthKind
    ensures p.Disc? <==> k == DiscKind
  {
    match p
    case ChatMsg(_, _, _) => ChatMsgKind
    case PingMsg(_) => PingMsgKind
    case Chat(_, _, _) => ChatKind
    case Ping(_) => PingKind
    case Auth(_) => AuthKind
    case Disc(_) => DiscKind
  }

  /** `reflect.TypeOf(new(T)).Elem().Name()`: the bare name of the struct type. */
  function TypeName(k: Kind): (name: string)
    ensures |name| > 0
  {
    match k
    case ChatMsgKind => "ChatMsg"
    case PingMsgKind => "PingMsg"
    case ChatKind => "Chat"
    case PingKind => "Ping"
    case AuthKind => "Auth"
    case DiscKind => "Disc"
  }

  /** Distinct payload types have distinct names, so a key identifies at most one type. */
  lemma TypeNameInjective(k1: Kind, k2: Kind)
    ensures TypeName(k1) == TypeName(k2) <==> k1 == k2
  {
  }

  /** A message: `Key` routes it to a handler, `Data` is its payload. */
  datatype Msg = Msg(key: string, data: Payload)

  /**
   * CreateMsg: the key is the payload's type name (so it names exactly one payload type) and the
   * payload is stored unchanged.
   */
  function CreateMsg(data: Payload): (m: Msg)
    ensures m.data == data
    ensures forall k :: m.key == TypeName(k) <==> k == KindOf(data)
  {
    Msg(TypeName(KindOf(data)), data)
  }

  /** The examples of the source: a ChatMsg is keyed "ChatMsg", a PingMsg is keyed "PingMsg". */
  lemma CreateMsgKeys(author: string, content: string, color: string, sentTime: int)
    ensures CreateMsg(ChatMsg(author, content, color)).key == "ChatMsg"
    ensures CreateMsg(PingMsg(sentTime)).key == "PingMsg"
    ensures CreateMsg(Chat(author, content, color)).key == "Chat"
    ensures CreateMsg(Ping(sentTime)).key == "Ping"
  {
  }

  /**
   * The JSON codec (`msg.JSON()` and `json.Unmarshal`), which is foreign code: marshalling may
   * fail, unmarshalling fails on malformed input.
   */
  datatype Codec = Codec(marshal: Msg -> Option<string>, unmarshal: string -> Option<Msg>)

  /**
   * What the model assumes of encoding/json: its output never contains a raw line feed (JSON
   * escapes it inside strings), and decoding it gives back a message with the same key. The
   * payload does not survive as such: Go decodes `Data` into a generic map.
   */
  ghost predicate Lawful(c: Codec)
  {
    forall m :: c.marshal(m).Some? ==>
      && '\n' !in c.marshal(m).value
      && c.unmarshal(c.marshal(m).value).Some?
      && c.unmarshal(c.marshal(m).value).value.key == m.key
  }
}

/**
 The relay's wire-level vocabulary: client identifiers, the three string
 newtypes, the operations a client sends and the operations the server sends
 back. The JSON encoding itself is not modelled; a decoded value stands in
 for the text.
 */
module Protocol {

  /** A version-4 UUID is a 128-bit value. */
  const UuidBound: nat := 0x1_0000_0000_0000_0000_0000_0000_0000_0000

  type Uuid = x: nat | x < UuidBound

  /** The server-assigned identity of one connection. */
  datatype ClientId = ClientId(uuid: Uuid)

  /** A group of clients; any string names a room. */
  datatype Room = Room(name: string)

  /** A sub-address inside a room; the relay carries it but never looks at it. */
  datatype Channel = Channel(name: string)

  /** The text a client asks the relay to forward. */
  datatype Message = Message(text: string)

  datatype Option<T> = None | Some(value: T)

  /** What a client asks for. */
  datatype ClientOperation =
    | ConnectAttempt
    | RoomJoin(joined: Room)
    | RoomLeave(left: Room)
    | Disconnect
    | Message(room: Room, channel: Channel, message: Message)

  /** One decoded frame: the optional claimed identity and the operation. */
  datatype ClientMessage = ClientMessage(clientId: Option<ClientId>, clientOperation: ClientOperation)

  /** What the server sends to a client outside of relayed messages. */
  datatype ServerOperation =
    | ClientConnectApproved(approved: ClientId)
    | RequestCurrentTaskStep

  /** The outcome of decoding one trimmed line. */
  datatype ParseResult = Ok(value: ClientMessage) | Err

  const ResponseSuffix: string := " RESPONSE"

  /** The text relayed for one `Message` operation: the message, a space and `RESPONSE`. */
  function ResponseText(m: Message): (r: string)
    ensures |r| == |m.text| + |ResponseSuffix|
    ensures r[..|m.text|] == m.text
    ensures r[|m.text|..] == ResponseSuffix
  {
    m.text + ResponseSuffix
  }

  /** The relay format is injective: distinct messages give distinct texts. */
  lemma ResponseTextInjective(a: Message, b: Message)
    ensures ResponseText(a) == ResponseText(b) <==> a == b
  {
    if ResponseText(a) == ResponseText(b) {
      assert |a.text| == |b.text|;
      assert a.text == ResponseText(a)[..|a.text|] == ResponseText(b)[..|b.text|] == b.text;
    }
  }

  /** The inverse of the relay format on one text: the message is what precedes the suffix. */
  function MessageOf(response: string): (m: Option<Message>)
    ensures m.Some? <==> |response| >= |ResponseSuffix| && response[|response| - |ResponseSuffix|..] == ResponseSuffix
    ensures m.Some? ==> ResponseText(m.value) == response
  {
    if |response| >= |ResponseSuffix| && response[|response| - |ResponseSuffix|..] == ResponseSuffix then
      Some(Message.Message(response[..|response| - |ResponseSuffix|]))
    else
      None
  }

  lemma {:induction false} ResponseRoundTrip(m: Message)
    ensures MessageOf(ResponseText(m)) == Some(m)
  {
    var r := ResponseText(m);
    assert r[|r| - |ResponseSuffix|..] == ResponseSuffix;
    assert r[..|r| - |ResponseSuffix|] == m.text;
  }

  /**
   Relayed texts carry no delimiter: any two relayed texts written back to back
   are the same characters as the one relayed text of a different message.
   */
  lemma BackToBackAmbiguous(a: Message, b: Message)
    ensures ResponseText(a) + ResponseText(b) == ResponseText(Message.Message(a.text + ResponseSuffix + b.text))
  {
    assert (a.text + ResponseSuffix) + (b.text + ResponseSuffix) == (a.text + ResponseSuffix + b.text) + ResponseSuffix;
  }
}

/**
 The read loop of one connection: every line is framed, decoded and
 dispatched on its operation, until an operation or a decoding failure ends
 the loop. Leaving the loop performs no cleanup of the directory.
 */
module Session {
  import opened Protocol
  import opened Framing
  import opened Directory

  /** Why a read loop ended. */
  datatype Exit =
    | ClientDisconnected  // a `Disconnect` operation
    | ParseFailed         // the line did not decode (this includes the empty line read at end of input)
    | Panicked            // a `Message` without a `clientId`: the `unwrap` ends the connection's task

  /** What one dispatched line does to the loop. */
  datatype Control = Continue | Stop(reason: Exit)

  /** Where a session is once its input so far has been read. */
  datatype SessionEnd = Ended(reason: Exit) | AwaitingInput

  /**
   One line read from the socket together with what the environment decides
   while it is handled: which recipients' channels refuse a relayed text, and
   whether writing a `ConnectAttempt` approval to the socket fails.
   */
  datatype Read = Read(line: string, sendFails: set<ClientId>, writeFails: bool)

  /** True when the decoded line keeps the loop running. */
  predicate Continues(decoded: ParseResult)
  {
    && decoded.Ok?
    && !decoded.value.clientOperation.Disconnect?
    && !(decoded.value.clientOperation.Message? && decoded.value.clientId.None?)
  }

  /**
   The effect of one decoded line of connection `id`. A `Message` is relayed
   to the room with the session's own id as the sender; the `clientId` the
   client wrote is only checked for presence, and the channel is ignored.
   */
  function Dispatch(s: State, id: ClientId, decoded: ParseResult, sendFails: set<ClientId>, writeFails: bool): (r: (State, Control))
    ensures r.1 == Continue <==> Continues(decoded)
    ensures r.1 == Stop(ParseFailed) <==> decoded.Err?
    ensures r.1 == Stop(ClientDisconnected) <==> decoded.Ok? && decoded.value.clientOperation.Disconnect?
    ensures r.1 == Stop(Panicked) <==> decoded.Ok? && decoded.value.clientOperation.Message? && decoded.value.clientId.None?
    ensures r.1.Stop? ==> r.0 == s
    ensures r.0.queues.Keys == s.queues.Keys && r.0.rooms.Keys >= s.rooms.Keys
    ensures forall rm, c :: c != id ==> (c in Members(r.0, rm) <==> c in Members(s, rm))
    ensures Valid(s) && id in s.queues ==> Valid(r.0)
  {
    match decoded
    case Err => (s, Stop(ParseFailed))
    case Ok(cm) =>
      match cm.clientOperation
      case Message(room, channel, message) =>
        if cm.clientId.None? then (s, Stop(Panicked))
        else (Broadcast(s, room, ResponseText(message), sendFails), Continue)
      case Disconnect => (s, Stop(ClientDisconnected))
      case ConnectAttempt => (Approve(Reregister(s, id), id, writeFails), Continue)
      case RoomJoin(room) => (Join(s, id, room), Continue)
      case RoomLeave(room) => (Leave(s, id, room), Continue)
  }

  /** One pass of the loop: the line is trimmed and decoded by `parse`, then dispatched. */
  function Step(s: State, id: ClientId, read: Read, parse: string -> ParseResult): (r: (State, Control))
    ensures r.1 == Stop(ParseFailed) <==> parse(Trim(read.line)).Err?
    ensures r.1 == Continue <==> Continues(parse(Trim(read.line)))
    ensures r.1.Stop? ==> r.0 == s
    ensures Valid(s) && id in s.queues ==> Valid(r.0)
  {
    FrameTextIsTrim(read.line);
    Dispatch(s, id, parse(FrameText(read.line)), read.sendFails, read.writeFails)
  }

  /** The lines of one connection, handled in the order they arrive, until one ends the loop. */
  function Run(s: State, id: ClientId, input: seq<Read>, parse: string -> ParseResult): (r: (State, SessionEnd))
    ensures r.0.queues.Keys == s.queues.Keys && r.0.rooms.Keys >= s.rooms.Keys
    ensures forall rm, c :: c != id ==> (c in Members(r.0, rm) <==> c in Members(s, rm))
    ensures Valid(s) && id in s.queues ==> Valid(r.0)
    decreases |input|
  {
    if input == [] then (s, AwaitingInput)
    else
      var (t, control) := Step(s, id, input[0], parse);
      if control.Stop? then (t, Ended(control.reason)) else Run(t, id, input[1..], parse)
  }

  /** Who receives a message does not depend on its channel. */
  lemma ChannelIgnored(s: State, id: ClientId, claimed: Option<ClientId>, room: Room, a: Channel, b: Channel,
                       message: Message, sendFails: set<ClientId>, writeFails: bool)
    ensures Dispatch(s, id, Ok(ClientMessage(claimed, ClientOperation.Message(room, a, message))), sendFails, writeFails)
         == Dispatch(s, id, Ok(ClientMessage(claimed, ClientOperation.Message(room, b, message))), sendFails, writeFails)
  {
  }

  /** The sender is the session itself: a present `clientId` has no influence on the outcome. */
  lemma ClaimedIdIgnored(s: State, id: ClientId, a: ClientId, b: ClientId, op: ClientOperation,
                         sendFails: set<ClientId>, writeFails: bool)
    ensures Dispatch(s, id, Ok(ClientMessage(Some(a), op)), sendFails, writeFails)
         == Dispatch(s, id, Ok(ClientMessage(Some(b), op)), sendFails, writeFails)
  {
  }

  /**
   A `Message` with a `clientId` relays the response text to every registered
   member whose send succeeds, the sender included when it is such a member, and
   to no one else; exactly the recipients whose send fails lose their `clients`
   entry, and rooms, writers and notices are untouched.
   */
  lemma MessageDelivery(s: State, id: ClientId, cid: ClientId, room: Room, channel: Channel, message: Message,
                        sendFails: set<ClientId>, writeFails: bool, c: ClientId)
    requires c in s.queues
    ensures var (t, control) := Dispatch(s, id, Ok(ClientMessage(Some(cid), ClientOperation.Message(room, channel, message))), sendFails, writeFails);
      && control == Continue
      && (c in Members(s, room) && c in s.clients && c !in sendFails ==> t.queues[c] == s.queues[c] + [message.text + " RESPONSE"])
      && (!(c in Members(s, room) && c in s.clients && c !in sendFails) ==> t.queues[c] == s.queues[c])
      && t.queues.Keys == s.queues.Keys
      && t.clients.Keys == s.clients.Keys - (Recipients(s, room) * sendFails)
      && (forall c' :: c' in t.clients ==> t.clients[c'] == s.clients[c'])
      && t.rooms == s.rooms && t.writers == s.writers && t.notices == s.notices
  {
  }

  /** The sender is not excluded: it gets its own message back when it is a registered member. */
  lemma SenderReceivesOwnMessage(s: State, id: ClientId, room: Room, channel: Channel, message: Message,
                                 sendFails: set<ClientId>, writeFails: bool)
    requires Valid(s) && id in s.clients && id in Members(s, room) && id !in sendFails
    ensures var t := Dispatch(s, id, Ok(ClientMessage(Some(id), ClientOperation.Message(room, channel, message))), sendFails, writeFails).0;
      t.queues[id] == s.queues[id] + [ResponseText(message)]
  {
  }

  /**
   `ConnectAttempt` re-registers the session's own handle and answers with the
   session's own id: the approval is appended to its writer when the writer
   exists and the write succeeds, and nothing else is written. A failed write is
   only logged. For a registered session the `clients` map is unchanged.
   */
  lemma ConnectAttemptApproves(s: State, id: ClientId, claimed: Option<ClientId>, sendFails: set<ClientId>, writeFails: bool)
    requires Valid(s)
    ensures var (t, control) := Dispatch(s, id, Ok(ClientMessage(claimed, ConnectAttempt)), sendFails, writeFails);
      && control == Continue
      && t.writers.Keys == s.writers.Keys
      && (id in s.writers ==>
            t.writers[id] == s.writers[id] + (if writeFails then [] else [Reply(ClientConnectApproved(id))]))
      && (forall c :: c in s.writers && c != id ==> t.writers[c] == s.writers[c])
      && t.clients.Keys == s.clients.Keys + {id} && t.clients[id] == Client(Sender(id), id)
      && (forall c :: c in s.clients && c != id ==> t.clients[c] == s.clients[c])
      && (id in s.clients ==> t.clients == s.clients)
      && t.rooms == s.rooms && t.queues == s.queues && t.notices == s.notices
  {
    if id in s.clients {
      ReregisterRegistered(s, id);
    }
  }

  /**
   `RoomJoin` adds the session's own id to that one room, creating the room if
   needed, and changes nothing else; the loop goes on.
   */
  lemma RoomJoinDispatch(s: State, id: ClientId, claimed: Option<ClientId>, room: Room,
                         sendFails: set<ClientId>, writeFails: bool)
    ensures var (t, control) := Dispatch(s, id, Ok(ClientMessage(claimed, RoomJoin(room))), sendFails, writeFails);
      && control == Continue
      && t.rooms.Keys == s.rooms.Keys + {room}
      && (forall r, c :: c in Members(t, r) <==> c in Members(s, r) || (r == room && c == id))
      && t.clients == s.clients && t.writers == s.writers && t.queues == s.queues && t.notices == s.notices
  {
  }

  /**
   `RoomLeave` removes the session's own id from that one room if the room
   exists, creates or deletes no room, and changes nothing else; the loop goes on.
   */
  lemma RoomLeaveDispatch(s: State, id: ClientId, claimed: Option<ClientId>, room: Room,
                          sendFails: set<ClientId>, writeFails: bool)
    ensures var (t, control) := Dispatch(s, id, Ok(ClientMessage(claimed, RoomLeave(room))), sendFails, writeFails);
      && control == Continue
      && t.rooms.Keys == s.rooms.Keys
      && (forall r, c :: c in Members(t, r) <==> c in Members(s, r) && !(r == room && c == id))
      && t.clients == s.clients && t.writers == s.writers && t.queues == s.queues && t.notices == s.notices
  {
  }

  /**
   Leaving the loop cleans nothing up: after joining a room and disconnecting,
   the session is still a member and still registered.
   */
  lemma DisconnectKeepsMembership(s: State, id: ClientId, room: Room, c1: Option<ClientId>, c2: Option<ClientId>,
                                  sendFails: set<ClientId>, writeFails: bool)
    requires id in s.clients
    ensures var (t, _) := Dispatch(s, id, Ok(ClientMessage(c1, RoomJoin(room))), sendFails, writeFails);
      var (u, control) := Dispatch(t, id, Ok(ClientMessage(c2, Disconnect)), sendFails, writeFails);
      && control == Stop(ClientDisconnected)
      && id in Members(u, room) && id in u.clients
  {
  }

  /** A line that fails to decode ends the loop and leaves every other connection's state as it was. */
  lemma ParseFailureIsolated(s: State, id: ClientId, read: Read, rest: seq<Read>, parse: string -> ParseResult)
    requires parse(FrameText(read.line)).Err?
    ensures Run(s, id, [read] + rest, parse) == (s, Ended(ParseFailed))
  {
  }

  /**
   At end of input `read_until` leaves the buffer empty, so the loop decodes the
   empty text; with a decoder that rejects it the loop ends there, changing nothing.
   */
  lemma EndOfInputStops(s: State, id: ClientId, sendFails: set<ClientId>, writeFails: bool, rest: seq<Read>,
                        parse: string -> ParseResult)
    requires parse([]).Err?
    ensures Run(s, id, [Read([], sendFails, writeFails)] + rest, parse) == (s, Ended(ParseFailed))
  {
    assert FrameText([]) == [];
  }

  /** The loop handles its lines in order: running two batches is running the first, then the second. */
  lemma {:induction false} RunAppend(s: State, id: ClientId, a: seq<Read>, b: seq<Read>, parse: string -> ParseResult)
    ensures Run(s, id, a + b, parse) ==
      var (t, end) := Run(s, id, a, parse);
      if end == AwaitingInput then Run(t, id, b, parse) else (t, end)
    decreases |a|
  {
    if a == [] {
      assert a + b == b;
    } else {
      assert (a + b)[0] == a[0];
      assert (a + b)[1..] == a[1..] + b;
      var (t, control) := Step(s, id, a[0], parse);
      if control.Continue? {
        RunAppend(t, id, a[1..], b, parse);
      }
    }
  }
}

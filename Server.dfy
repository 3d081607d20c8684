/**
 The server record and the per-connection tasks that edit it. Every method is one critical
 section (or one task's loop of them) performed in place on the fields; its
 postcondition says that the new state is the corresponding function of
 Directory.dfy or Session.dfy applied to the old state.
 */
module RelayServer {
  import opened Protocol
  import opened Framing
  import opened Directory
  import Session

  class Server {
    var clients: map<ClientId, Client>
    var writers: map<ClientId, seq<Frame>>
    var rooms: map<Room, set<ClientId>>
    /** The outbound channel of every accepted connection, as the texts waiting in it. */
    var queues: map<ClientId, seq<string>>
    /** The dead-client channel of every accepted connection, as the ids waiting in it. */
    var notices: map<ClientId, seq<ClientId>>

    ghost function Snapshot(): State
      reads this
    {
      State(clients, writers, rooms, queues, notices)
    }

    ghost predicate Valid()
      reads this
    {
      Directory.Valid(Snapshot())
    }

    /** The server `main` creates: three empty maps and no connection yet. */
    constructor ()
      ensures Valid() && Snapshot() == Empty
    {
      clients, writers, rooms := map[], map[], map[];
      queues, notices := map[], map[];
    }

    /** A connection is accepted: its channels are created and its handle and writer registered. */
    method Accept(id: ClientId)
      requires Valid() && id !in queues
      modifies this
      ensures Valid() && Snapshot() == Directory.Accept(old(Snapshot()), id)
    {
      queues := queues[id := []];
      notices := notices[id := []];
      clients := clients[id := Client(Sender(id), id)];
      writers := writers[id := []];
    }

    method JoinRoom(id: ClientId, room: Room)
      requires Valid() && id in queues
      modifies this
      ensures Valid() && Snapshot() == Join(old(Snapshot()), id, room)
    {
      var members := if room in rooms then rooms[room] else {};
      rooms := rooms[room := members + {id}];
    }

    method LeaveRoom(id: ClientId, room: Room)
      requires Valid()
      modifies this
      ensures Valid() && Snapshot() == Leave(old(Snapshot()), id, room)
    {
      if room in rooms {
        rooms := rooms[room := rooms[room] - {id}];
      }
    }

    /**
     The `Message` fan-out: the text is sent to the room's members, then the
     members whose send failed are removed from `clients`.
     */
    method Broadcast(room: Room, text: string, sendFails: set<ClientId>)
      requires Valid()
      modifies this
      ensures Valid() && Snapshot() == Directory.Broadcast(old(Snapshot()), room, text, sendFails)
    {
      ghost var s := Snapshot();
      var dead := SendToMembers(room, text, sendFails);
      RemoveClients(dead);
      assert (set x | x in dead) == Recipients(s, room) * sendFails;
      assert Snapshot() == s.(queues := Append(s.queues, Recipients(s, room) - sendFails, text),
                              clients := s.clients - (Recipients(s, room) * sendFails));
    }

    /**
     The loop over the room's members: each member that has a handle is sent the
     text through it, and those whose send fails are collected.
     */
    method SendToMembers(room: Room, text: string, sendFails: set<ClientId>) returns (dead: seq<ClientId>)
      requires Valid()
      modifies this
      ensures queues == Append(old(queues), Recipients(old(Snapshot()), room) - sendFails, text)
      ensures forall x :: x in dead <==> x in Recipients(old(Snapshot()), room) * sendFails
      ensures clients == old(clients) && writers == old(writers) && rooms == old(rooms) && notices == old(notices)
    {
      ghost var s := Snapshot();
      dead := [];
      if room in rooms {
        var pending := rooms[room];
        ghost var visited: set<ClientId> := {};
        while pending != {}
          invariant pending + visited == s.rooms[room] && pending !! visited
          invariant clients == s.clients && writers == s.writers && rooms == s.rooms && notices == s.notices
          invariant queues == Append(s.queues, visited * s.clients.Keys - sendFails, text)
          invariant forall x :: x in dead <==> x in visited * s.clients.Keys * sendFails
          decreases pending
        {
          var c :| c in pending;
          if c in clients {
            if c in sendFails {
              dead := dead + [c];
            } else {
              var q := clients[c].tx.connection;
              AppendOneMore(s.queues, visited * s.clients.Keys - sendFails, c, text);
              queues := queues[q := queues[q] + [text]];
            }
          }
          pending := pending - {c};
          visited := visited + {c};
        }
        assert visited == s.rooms[room];
      } else {
        assert Append(s.queues, {}, text) == s.queues;
      }
    }

    /** The loop over the collected ids: each is removed from `clients`. */
    method RemoveClients(dead: seq<ClientId>)
      modifies this
      ensures clients == old(clients) - (set x | x in dead)
      ensures queues == old(queues) && writers == old(writers) && rooms == old(rooms) && notices == old(notices)
    {
      for i := 0 to |dead|
        invariant clients == old(clients) - (set x | x in dead[..i])
        invariant queues == old(queues) && writers == old(writers) && rooms == old(rooms) && notices == old(notices)
      {
        assert dead[..i + 1] == dead[..i] + [dead[i]];
        clients := clients - {dead[i]};
      }
      assert dead[..|dead|] == dead;
    }

    /** The `clients.insert` of `ConnectAttempt`. */
    method Reregister(id: ClientId)
      requires Valid() && id in queues
      modifies this
      ensures Valid() && Snapshot() == Directory.Reregister(old(Snapshot()), id)
    {
      clients := clients[id := Client(Sender(id), id)];
    }

    /** The approval of `ConnectAttempt`, written straight to the connection's writer if it still has one. */
    method SendApproval(id: ClientId, writeFails: bool) returns (reply: ServerOperation)
      requires Valid()
      modifies this
      ensures reply == Approval(id)
      ensures Valid() && Snapshot() == Approve(old(Snapshot()), id, writeFails)
    {
      reply := ClientConnectApproved(id);
      if id in writers {
        if !writeFails {
          writers := writers[id := writers[id] + [Reply(reply)]];
        }
      }
    }

    /** The body of the read loop for one decoded line of connection `id`. */
    method Dispatch(id: ClientId, decoded: ParseResult, sendFails: set<ClientId>, writeFails: bool)
      returns (control: Session.Control)
      requires Valid() && id in queues
      modifies this
      ensures Valid() && (Snapshot(), control) == Session.Dispatch(old(Snapshot()), id, decoded, sendFails, writeFails)
    {
      match decoded
      case Err =>
        control := Session.Stop(Session.ParseFailed);
      case Ok(cm) =>
        match cm.clientOperation
        case Message(room, channel, message) =>
          if cm.clientId.None? {
            control := Session.Stop(Session.Panicked);
          } else {
            Broadcast(room, ResponseText(message), sendFails);
            control := Session.Continue;
          }
        case Disconnect =>
          control := Session.Stop(Session.ClientDisconnected);
        case ConnectAttempt =>
          Reregister(id);
          var reply := SendApproval(id, writeFails);
          control := Session.Continue;
        case RoomJoin(room) =>
          JoinRoom(id, room);
          control := Session.Continue;
        case RoomLeave(room) =>
          LeaveRoom(id, room);
          control := Session.Continue;
    }

    /** The read loop of connection `id` over the lines it has received so far. */
    method ReadLoop(id: ClientId, input: seq<Session.Read>, parse: string -> ParseResult)
      returns (end: Session.SessionEnd)
      requires Valid() && id in queues
      modifies this
      ensures Valid() && (Snapshot(), end) == Session.Run(old(Snapshot()), id, input, parse)
    {
      var i := 0;
      while i < |input|
        invariant 0 <= i <= |input| && Valid() && id in queues
        invariant Session.Run(Snapshot(), id, input[i..], parse) == Session.Run(old(Snapshot()), id, input, parse)
      {
        var text := FrameText(input[i].line);
        var control := Dispatch(id, parse(text), input[i].sendFails, input[i].writeFails);
        if control.Stop? {
          end := Session.Ended(control.reason);
          return;
        }
        assert input[i..][1..] == input[i + 1..];
        i := i + 1;
      }
      end := Session.AwaitingInput;
    }

    /**
     The outbound task of connection `id` taking every text now queued, oldest
     first; `ok[k]` says whether writing the k-th one to the socket succeeds.
     */
    method Drain(id: ClientId, ok: seq<bool>)
      requires Valid() && id in queues && |ok| == |queues[id]|
      modifies this
      ensures Valid() && Snapshot() == Directory.Drain(old(Snapshot()), id, ok)
    {
      var i := 0;
      while queues[id] != []
        invariant 0 <= i <= |ok| && Valid() && id in queues && |queues[id]| == |ok| - i
        invariant Directory.Drain(Snapshot(), id, ok[i..]) == Directory.Drain(old(Snapshot()), id, ok)
        decreases |queues[id]|
      {
        assert ok[i..][0] == ok[i] && ok[i..][1..] == ok[i + 1..];
        TakeOne(id, ok[i]);
        i := i + 1;
      }
    }

    /** One pass of the outbound task: the oldest queued text is written, reported as failed, or dropped. */
    method TakeOne(id: ClientId, written: bool)
      requires Valid() && id in queues && queues[id] != []
      modifies this
      ensures Valid() && Snapshot() == Deliver(old(Snapshot()), id, written)
    {
      var message := queues[id][0];
      queues := queues[id := queues[id][1..]];
      if id in writers {
        if written {
          writers := writers[id := writers[id] + [Relayed(message)]];
        } else {
          notices := notices[id := notices[id] + [id]];
        }
      }
    }

    /** The dead-client task of connection `conn` taking every notice now pending: each drops the named writer. */
    method RemoveDeadClients(conn: ClientId)
      requires Valid() && conn in notices
      modifies this
      ensures Valid() && Snapshot() == RemoveDead(old(Snapshot()), conn)
    {
      ghost var s := Snapshot();
      ghost var n := s.notices[conn];
      var i := 0;
      while notices[conn] != []
        invariant 0 <= i <= |n| && conn in notices
        invariant notices == s.notices[conn := n[i..]]
        invariant writers == s.writers - (set x | x in n[..i])
        invariant clients == s.clients && rooms == s.rooms && queues == s.queues
        decreases |notices[conn]|
      {
        var dead := notices[conn][0];
        notices := notices[conn := notices[conn][1..]];
        assert n[..i + 1] == n[..i] + [dead];
        writers := writers - {dead};
        i := i + 1;
      }
      assert n[..i] == n;
    }
  }
}

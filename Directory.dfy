/**
 The relay's shared directory as a value: the three maps of the server
 record, plus the two kinds of per-connection channels that a connection's tasks share (the
 outbound message channel and the dead-client notice channel). Each function
 here is the effect of one critical section on that value; the class in
 Server.dfy performs the same edits in place and is proved against these.
 */
module Directory {
  import opened Protocol

  /** The sending half of one connection's outbound channel, named by the connection it feeds. */
  datatype Sender = Sender(connection: ClientId)

  /** A registered client: its outbound handle and its id. */
  datatype Client = Client(tx: Sender, clientId: ClientId)

  /** What reaches a client's socket: a relayed text or a serialised server operation. */
  datatype Frame = Relayed(text: string) | Reply(op: ServerOperation)

  /**
   `clients`, `writers` and `rooms` are the server's maps; a writer is
   represented by the frames written to it so far. `queues` holds, for every
   accepted connection, the texts waiting in its outbound channel, and
   `notices` the ids waiting in its dead-client channel.
   */
  datatype State = State(
    clients: map<ClientId, Client>,
    writers: map<ClientId, seq<Frame>>,
    rooms: map<Room, set<ClientId>>,
    queues: map<ClientId, seq<string>>,
    notices: map<ClientId, seq<ClientId>>)

  /** The server as `main` creates it, before the first connection. */
  const Empty: State := State(map[], map[], map[], map[], map[])

  /**
   What every critical section keeps: every id the maps mention belongs to an
   accepted connection (one that owns channels), every registered handle feeds
   its own connection, and a connection's notice channel carries only its own id.
   */
  predicate Valid(s: State)
  {
    && s.clients.Keys <= s.queues.Keys
    && s.writers.Keys <= s.queues.Keys
    && s.notices.Keys == s.queues.Keys
    && (forall r :: r in s.rooms ==> s.rooms[r] <= s.queues.Keys)
    && (forall id :: id in s.clients ==> s.clients[id] == Client(Sender(id), id))
    && (forall c, k :: c in s.notices && 0 <= k < |s.notices[c]| ==> s.notices[c][k] == c)
  }

  /** The members of a room; a room that was never joined has none. */
  function Members(s: State, room: Room): set<ClientId>
  {
    if room in s.rooms then s.rooms[room] else {}
  }

  /** The members of a room that still have a `clients` entry: those a message to the room is sent to. */
  function Recipients(s: State, room: Room): set<ClientId>
  {
    Members(s, room) * s.clients.Keys
  }

  lemma EmptyIsValid()
    ensures Valid(Empty)
  {
  }

  // ---------------------------------------------------------------------------
  // Accept

  /** A new connection: its handle and its writer are registered under a fresh id. */
  function Accept(s: State, id: ClientId): (t: State)
    requires Valid(s) && id !in s.queues
    ensures t.clients.Keys == s.clients.Keys + {id} && t.clients[id] == Client(Sender(id), id)
    ensures t.writers.Keys == s.writers.Keys + {id} && t.writers[id] == []
    ensures t.queues.Keys == s.queues.Keys + {id} && t.queues[id] == []
    ensures t.notices.Keys == s.notices.Keys + {id} && t.notices[id] == []
    ensures forall c :: c in s.clients ==> t.clients[c] == s.clients[c]
    ensures forall c :: c in s.writers ==> t.writers[c] == s.writers[c]
    ensures forall c :: c in s.queues ==> t.queues[c] == s.queues[c]
    ensures forall c :: c in s.notices ==> t.notices[c] == s.notices[c]
    ensures t.rooms == s.rooms
    ensures Valid(t) && forall r :: id !in Members(t, r)
  {
    s.(clients := s.clients[id := Client(Sender(id), id)],
       writers := s.writers[id := []],
       queues := s.queues[id := []],
       notices := s.notices[id := []])
  }

  // ---------------------------------------------------------------------------
  // RoomJoin and RoomLeave

  /** `RoomJoin`: the room's member set, created empty if missing, gains the id. */
  function Join(s: State, id: ClientId, room: Room): (t: State)
    ensures t.rooms.Keys == s.rooms.Keys + {room}
    ensures forall r, c :: c in Members(t, r) <==> c in Members(s, r) || (r == room && c == id)
    ensures t.clients == s.clients && t.writers == s.writers
    ensures t.queues == s.queues && t.notices == s.notices
    ensures Valid(s) && id in s.queues ==> Valid(t)
  {
    s.(rooms := s.rooms[room := Members(s, room) + {id}])
  }

  /** `RoomLeave`: the id leaves the room if the room exists; no key is created or deleted. */
  function Leave(s: State, id: ClientId, room: Room): (t: State)
    ensures room !in s.rooms ==> t == s
    ensures t.rooms.Keys == s.rooms.Keys
    ensures forall r, c :: c in Members(t, r) <==> c in Members(s, r) && !(r == room && c == id)
    ensures t.clients == s.clients && t.writers == s.writers
    ensures t.queues == s.queues && t.notices == s.notices
    ensures Valid(s) ==> Valid(t)
  {
    if room in s.rooms then s.(rooms := s.rooms[room := s.rooms[room] - {id}]) else s
  }

  lemma JoinIdempotent(s: State, id: ClientId, room: Room)
    ensures Join(Join(s, id, room), id, room) == Join(s, id, room)
  {
    var t := Join(s, id, room);
    assert Members(t, room) + {id} == Members(t, room);
  }

  lemma LeaveIdempotent(s: State, id: ClientId, room: Room)
    ensures Leave(Leave(s, id, room), id, room) == Leave(s, id, room)
  {
    if room in s.rooms {
      var t := Leave(s, id, room);
      assert t.rooms[room] - {id} == t.rooms[room];
    }
  }

  /** Joining then leaving the same room removes the id but keeps the room, now possibly empty. */
  lemma JoinThenLeave(s: State, id: ClientId, room: Room)
    ensures var t := Leave(Join(s, id, room), id, room);
      && room in t.rooms && id !in t.rooms[room]
      && t.rooms[room] == Members(s, room) - {id}
  {
    var u := Join(s, id, room);
    assert u.rooms[room] == Members(s, room) + {id};
  }

  // ---------------------------------------------------------------------------
  // Message fan-out

  /** Every listed queue gains `text` at its end; every other queue is unchanged. */
  function Append(queues: map<ClientId, seq<string>>, to: set<ClientId>, text: string): (q: map<ClientId, seq<string>>)
    ensures q.Keys == queues.Keys
  {
    map c | c in queues :: if c in to then queues[c] + [text] else queues[c]
  }

  /** Sending to one more connection appends to its queue only. */
  lemma AppendOneMore(queues: map<ClientId, seq<string>>, to: set<ClientId>, c: ClientId, text: string)
    requires c in queues && c !in to
    ensures Append(queues, to + {c}, text) == Append(queues, to, text)[c := queues[c] + [text]]
  {
  }

  /**
   `Message` to a room: every recipient whose send succeeds gains `text` at
   the end of its queue; every recipient whose send fails loses its `clients`
   entry. Room memberships and writers are left as they were.
   */
  function Broadcast(s: State, room: Room, text: string, sendFails: set<ClientId>): (t: State)
    ensures t.rooms == s.rooms && t.writers == s.writers && t.notices == s.notices
    ensures t.queues.Keys == s.queues.Keys
    ensures forall c :: c in s.queues ==>
      t.queues[c] == if c in Recipients(s, room) && c !in sendFails then s.queues[c] + [text] else s.queues[c]
    ensures t.clients.Keys == s.clients.Keys - (Recipients(s, room) * sendFails)
    ensures forall c :: c in t.clients ==> t.clients[c] == s.clients[c]
    ensures Valid(s) ==> Valid(t)
  {
    var recipients := Recipients(s, room);
    s.(queues := Append(s.queues, recipients - sendFails, text),
       clients := s.clients - (recipients * sendFails))
  }

  /** A connection that is not a member of the room receives nothing. */
  lemma BroadcastSkipsNonMembers(s: State, room: Room, text: string, sendFails: set<ClientId>, c: ClientId)
    requires c in s.queues && c !in Members(s, room)
    ensures Broadcast(s, room, text, sendFails).queues[c] == s.queues[c]
  {
  }

  /** A message to a room nobody ever joined changes nothing at all. */
  lemma BroadcastUnknownRoom(s: State, room: Room, text: string, sendFails: set<ClientId>)
    requires room !in s.rooms
    ensures Broadcast(s, room, text, sendFails) == s
  {
    var t := Broadcast(s, room, text, sendFails);
    assert Recipients(s, room) == {};
    assert t.queues == s.queues;
    assert t.clients == s.clients;
  }

  /** A member without a `clients` entry is skipped: its queue is unchanged and nothing is removed. */
  lemma BroadcastSkipsUnregistered(s: State, room: Room, text: string, sendFails: set<ClientId>, c: ClientId)
    requires c in s.queues && c in Members(s, room) && c !in s.clients
    ensures Broadcast(s, room, text, sendFails).queues[c] == s.queues[c]
    ensures c !in Broadcast(s, room, text, sendFails).clients
  {
  }

  /** A recipient whose send fails loses its handle but stays in every room and keeps its writer. */
  lemma BroadcastPrunesOnlyClients(s: State, room: Room, text: string, sendFails: set<ClientId>, c: ClientId)
    requires c in Recipients(s, room) && c in sendFails && c in s.writers
    ensures var t := Broadcast(s, room, text, sendFails);
      c !in t.clients && c in t.writers && forall r :: c in Members(s, r) ==> c in Members(t, r)
  {
  }

  /** Once a send has failed, the room keeps naming an id that has no handle. */
  lemma BroadcastLeavesStaleMember(s: State, room: Room, text: string, sendFails: set<ClientId>, c: ClientId)
    requires c in Recipients(s, room) && c in sendFails
    ensures var t := Broadcast(s, room, text, sendFails);
      c in Members(t, room) && c !in Recipients(t, room)
  {
  }

  // ---------------------------------------------------------------------------
  // ConnectAttempt

  /** The `clients.insert` of `ConnectAttempt`: the connection's own handle under its own id. */
  function Reregister(s: State, id: ClientId): (t: State)
    ensures t.clients.Keys == s.clients.Keys + {id} && t.clients[id] == Client(Sender(id), id)
    ensures forall c :: c in s.clients && c != id ==> t.clients[c] == s.clients[c]
    ensures t.writers == s.writers && t.rooms == s.rooms && t.queues == s.queues && t.notices == s.notices
    ensures Valid(s) && id in s.queues ==> Valid(t)
  {
    s.(clients := s.clients[id := Client(Sender(id), id)])
  }

  /** For a connection that is still registered, re-registering changes nothing, not even the key set. */
  lemma ReregisterRegistered(s: State, id: ClientId)
    requires Valid(s) && id in s.clients
    ensures Reregister(s, id) == s
  {
    assert Reregister(s, id).clients == s.clients;
  }

  /** The reply sent to a `ConnectAttempt`: approval carrying the connection's own id. */
  function Approval(id: ClientId): (op: ServerOperation)
    ensures op.ClientConnectApproved? && op.approved == id
  {
    ClientConnectApproved(id)
  }

  /**
   The approval write of `ConnectAttempt`: when the connection still has a
   writer and the write succeeds, the approval is appended to what it has
   written; otherwise nothing changes (a failure is only logged).
   */
  function Approve(s: State, id: ClientId, writeFails: bool): (t: State)
    ensures t.writers.Keys == s.writers.Keys
    ensures forall c :: c in s.writers && c != id ==> t.writers[c] == s.writers[c]
    ensures id in s.writers ==>
      t.writers[id] == s.writers[id] + (if writeFails then [] else [Reply(Approval(id))])
    ensures t.clients == s.clients && t.rooms == s.rooms && t.queues == s.queues && t.notices == s.notices
    ensures Valid(s) ==> Valid(t)
  {
    if id in s.writers && !writeFails then
      s.(writers := s.writers[id := s.writers[id] + [Reply(Approval(id))]])
    else
      s
  }

  // ---------------------------------------------------------------------------
  // Outbound delivery

  /** How many of the writes failed. */
  function Failures(ok: seq<bool>): (n: nat)
    ensures n <= |ok|
    ensures n == 0 <==> forall k :: 0 <= k < |ok| ==> ok[k]
  {
    if ok == [] then 0 else Failures(ok[..|ok| - 1]) + (if ok[|ok| - 1] then 0 else 1)
  }

  /** The frames that reach the socket when the queued texts are written with outcomes `ok`, in queue order. */
  function Written(msgs: seq<string>, ok: seq<bool>): (r: seq<Frame>)
    requires |ok| == |msgs|
    ensures |r| + Failures(ok) == |msgs|
    ensures forall k :: 0 <= k < |r| ==> r[k].Relayed?
  {
    if msgs == [] then []
    else Written(msgs[..|msgs| - 1], ok[..|ok| - 1]) + (if ok[|ok| - 1] then [Relayed(msgs[|msgs| - 1])] else [])
  }

  /** `n` copies of a notice. */
  function Notices(id: ClientId, n: nat): (r: seq<ClientId>)
    ensures |r| == n && forall k :: 0 <= k < n ==> r[k] == id
  {
    seq(n, _ => id)
  }

  /**
   One pass of the outbound task: the oldest queued text is taken; with a
   writer present it is written (`written`), or on a failed write a notice is
   posted; with no writer it is dropped.
   */
  function Deliver(s: State, id: ClientId, written: bool): (t: State)
    requires Valid(s) && id in s.queues && s.queues[id] != []
    ensures t.queues == s.queues[id := s.queues[id][1..]]
    ensures t.writers.Keys == s.writers.Keys && t.notices.Keys == s.notices.Keys
    ensures forall c :: c in s.writers && c != id ==> t.writers[c] == s.writers[c]
    ensures forall c :: c in s.notices && c != id ==> t.notices[c] == s.notices[c]
    ensures id in s.writers ==> t.writers[id] == s.writers[id] + (if written then [Relayed(s.queues[id][0])] else [])
    ensures id in s.writers ==> t.notices[id] == s.notices[id] + (if written then [] else [id])
    ensures id !in s.writers ==> t.writers == s.writers && t.notices == s.notices
    ensures t.clients == s.clients && t.rooms == s.rooms
    ensures Valid(t)
  {
    var rest := s.queues[id := s.queues[id][1..]];
    if id !in s.writers then s.(queues := rest)
    else if written then s.(queues := rest, writers := s.writers[id := s.writers[id] + [Relayed(s.queues[id][0])]])
    else s.(queues := rest, notices := s.notices[id := s.notices[id] + [id]])
  }

  /**
   The outbound task taking every text now in the connection's queue, oldest
   first, `ok[k]` telling whether the k-th write succeeds. Nothing but that
   connection's queue, writer and notices changes.
   */
  function Drain(s: State, id: ClientId, ok: seq<bool>): (t: State)
    requires Valid(s) && id in s.queues && |ok| == |s.queues[id]|
    ensures t.queues == s.queues[id := []]
    ensures t.writers.Keys == s.writers.Keys && t.notices.Keys == s.notices.Keys
    ensures forall c :: c in s.writers && c != id ==> t.writers[c] == s.writers[c]
    ensures forall c :: c in s.notices && c != id ==> t.notices[c] == s.notices[c]
    ensures id !in s.writers ==> t.writers == s.writers && t.notices == s.notices
    ensures t.clients == s.clients && t.rooms == s.rooms
    ensures Valid(t)
    decreases |ok|
  {
    if ok == [] then
      assert s.queues[id := []] == s.queues;
      s
    else
      Drain(Deliver(s, id, ok[0]), id, ok[1..])
  }

  lemma {:induction false} FailuresAppend(a: seq<bool>, b: seq<bool>)
    ensures Failures(a + b) == Failures(a) + Failures(b)
    decreases |b|
  {
    if b == [] {
      assert a + b == a;
    } else {
      assert (a + b)[..|a + b| - 1] == a + b[..|b| - 1];
      FailuresAppend(a, b[..|b| - 1]);
    }
  }

  lemma ConcatAssoc<T>(a: seq<T>, b: seq<T>, c: seq<T>)
    ensures (a + b) + c == a + (b + c)
  {
  }

  lemma NoticesAppend(id: ClientId, a: nat, b: nat)
    ensures Notices(id, a + b) == Notices(id, a) + Notices(id, b)
  {
    assert forall k :: 0 <= k < a + b ==> (Notices(id, a) + Notices(id, b))[k] == id;
  }

  /** Written frames, taken from the front: the oldest text's frame, if written, comes first. */
  lemma WrittenCons(q: seq<string>, ok: seq<bool>)
    requires |ok| == |q| && q != []
    ensures Written(q, ok) == (if ok[0] then [Relayed(q[0])] else []) + Written(q[1..], ok[1..])
  {
    assert q == [q[0]] + q[1..] && ok == [ok[0]] + ok[1..];
    assert Written([q[0]], [ok[0]]) == if ok[0] then [Relayed(q[0])] else [];
    WrittenAppend([q[0]], [ok[0]], q[1..], ok[1..]);
  }

  /** Notices, taken from the front: the oldest write's notice, if it failed, comes first. */
  lemma NoticesCons(id: ClientId, ok: seq<bool>)
    requires ok != []
    ensures Notices(id, Failures(ok)) == (if ok[0] then [] else [id]) + Notices(id, Failures(ok[1..]))
  {
    assert ok == [ok[0]] + ok[1..];
    FailuresAppend([ok[0]], ok[1..]);
    assert Failures([ok[0]]) == if ok[0] then 0 else 1;
    NoticesAppend(id, if ok[0] then 0 else 1, Failures(ok[1..]));
    assert Notices(id, if ok[0] then 0 else 1) == if ok[0] then [] else [id];
  }

  /**
   What a drain leaves on the socket: the queued texts whose write succeeded,
   in queue order, after what was written before.
   */
  lemma {:induction false} DrainWrites(s: State, id: ClientId, ok: seq<bool>)
    requires Valid(s) && id in s.writers && |ok| == |s.queues[id]|
    ensures Drain(s, id, ok).writers[id] == s.writers[id] + Written(s.queues[id], ok)
    decreases |ok|
  {
    var q := s.queues[id];
    if ok == [] {
      assert Written(q, ok) == [];
      assert s.writers[id] + [] == s.writers[id];
    } else {
      var t := Deliver(s, id, ok[0]);
      DrainWrites(t, id, ok[1..]);
      var w0 := if ok[0] then [Relayed(q[0])] else [];
      WrittenCons(q, ok);
      ConcatAssoc(s.writers[id], w0, Written(q[1..], ok[1..]));
    }
  }

  /** What a drain leaves in the dead-client channel: one notice per failed write. */
  lemma {:induction false} DrainNotices(s: State, id: ClientId, ok: seq<bool>)
    requires Valid(s) && id in s.writers && |ok| == |s.queues[id]|
    ensures Drain(s, id, ok).notices[id] == s.notices[id] + Notices(id, Failures(ok))
    decreases |ok|
  {
    if ok == [] {
      assert Notices(id, Failures(ok)) == [];
      assert s.notices[id] + [] == s.notices[id];
    } else {
      var t := Deliver(s, id, ok[0]);
      DrainNotices(t, id, ok[1..]);
      var n0 := if ok[0] then [] else [id];
      NoticesCons(id, ok);
      ConcatAssoc(s.notices[id], n0, Notices(id, Failures(ok[1..])));
    }
  }

  /** The written frames of two consecutive batches are those of the first batch, then those of the second. */
  lemma {:induction false} WrittenAppend(a: seq<string>, oa: seq<bool>, b: seq<string>, ob: seq<bool>)
    requires |oa| == |a| && |ob| == |b|
    ensures Written(a + b, oa + ob) == Written(a, oa) + Written(b, ob)
    decreases |b|
  {
    if b == [] {
      assert a + b == a && oa + ob == oa;
    } else {
      var b', ob' := b[..|b| - 1], ob[..|ob| - 1];
      assert (a + b)[..|a + b| - 1] == a + b';
      assert (oa + ob)[..|oa + ob| - 1] == oa + ob';
      WrittenAppend(a, oa, b', ob');
    }
  }

  /** Every text of `msgs` as a relayed frame, in order. */
  function Frames(msgs: seq<string>): (r: seq<Frame>)
    ensures |r| == |msgs| && forall k :: 0 <= k < |msgs| ==> r[k] == Relayed(msgs[k])
  {
    if msgs == [] then [] else Frames(msgs[..|msgs| - 1]) + [Relayed(msgs[|msgs| - 1])]
  }

  /** When no write fails, every queued text reaches the socket, in the order it was queued. */
  lemma {:induction false} WrittenAll(msgs: seq<string>, ok: seq<bool>)
    requires |ok| == |msgs| && forall k :: 0 <= k < |ok| ==> ok[k]
    ensures Written(msgs, ok) == Frames(msgs)
    decreases |msgs|
  {
    if msgs != [] {
      WrittenAll(msgs[..|msgs| - 1], ok[..|ok| - 1]);
    }
  }

  /** A text queued by a broadcast is written after everything that was queued before it. */
  lemma BroadcastThenDrain(s: State, room: Room, text: string, sendFails: set<ClientId>, id: ClientId, ok: seq<bool>)
    requires Valid(s) && id in s.writers && id in Recipients(s, room) && id !in sendFails
    requires |ok| == |s.queues[id]| + 1 && forall k :: 0 <= k < |ok| ==> ok[k]
    ensures var u := Broadcast(s, room, text, sendFails);
      && |ok| == |u.queues[id]|
      && Drain(u, id, ok).writers[id] == s.writers[id] + Frames(s.queues[id]) + [Relayed(text)]
  {
    var u := Broadcast(s, room, text, sendFails);
    var q := s.queues[id];
    assert u.queues[id] == q + [text];
    assert u.writers == s.writers;
    DrainWrites(u, id, ok);
    WrittenAll(q + [text], ok);
    assert (q + [text])[..|q|] == q;
    assert Frames(q + [text]) == Frames(q) + [Relayed(text)];
    ConcatAssoc(s.writers[id], Frames(q), [Relayed(text)]);
  }

  // ---------------------------------------------------------------------------
  // Dead-client removal

  /** The removal task taking every notice now in the connection's channel: each named writer is dropped. */
  function RemoveDead(s: State, conn: ClientId): (t: State)
    requires conn in s.notices
    ensures t.writers.Keys == s.writers.Keys - (set x | x in s.notices[conn])
    ensures forall c :: c in t.writers ==> t.writers[c] == s.writers[c]
    ensures t.notices.Keys == s.notices.Keys && t.notices[conn] == []
    ensures forall c :: c in s.notices && c != conn ==> t.notices[c] == s.notices[c]
    ensures t.clients == s.clients && t.rooms == s.rooms && t.queues == s.queues
    ensures Valid(s) ==> Valid(t)
  {
    var dead := set x | x in s.notices[conn];
    s.(writers := s.writers - dead, notices := s.notices[conn := []])
  }

  /** Removal drops exactly this connection's writer when a notice is pending, and nothing otherwise. */
  lemma RemoveDeadOwnWriter(s: State, conn: ClientId)
    requires Valid(s) && conn in s.notices
    ensures RemoveDead(s, conn).writers == if s.notices[conn] == [] then s.writers else s.writers - {conn}
  {
    var dead := set x | x in s.notices[conn];
    if s.notices[conn] != [] {
      assert s.notices[conn][0] in dead;
      assert dead == {conn};
    } else {
      assert dead == {};
    }
  }

  /** Removing a writer that is already gone changes nothing but the emptied channel. */
  lemma RemoveDeadAbsent(s: State, conn: ClientId)
    requires Valid(s) && conn in s.notices && conn !in s.writers
    ensures RemoveDead(s, conn).writers == s.writers
  {
    RemoveDeadOwnWriter(s, conn);
  }

  lemma RemoveDeadIdempotent(s: State, conn: ClientId)
    requires Valid(s) && conn in s.notices
    ensures RemoveDead(RemoveDead(s, conn), conn) == RemoveDead(s, conn)
  {
    var t := RemoveDead(s, conn);
    assert (set x | x in t.notices[conn]) == {};
  }

  /** A write failure followed by the removal task leaves the connection registered but without a writer. */
  lemma DrainFailureThenRemove(s: State, id: ClientId, ok: seq<bool>)
    requires Valid(s) && id in s.writers && |ok| == |s.queues[id]| && Failures(ok) > 0
    ensures var t := RemoveDead(Drain(s, id, ok), id);
      id !in t.writers && t.clients == s.clients && t.rooms == s.rooms
  {
    var u := Drain(s, id, ok);
    DrainNotices(s, id, ok);
    RemoveDeadOwnWriter(u, id);
  }
}

# Relay server directory, modelled in Dafny

The relay server of `actor_relay_service` accepts TCP connections. It gives each
connection a fresh `ClientId` and relays every client `Message` to the members of
a room. All connections share one `Server` record, which holds three maps:

- `clients`: each id's outbound channel handle;
- `writers`: each id's socket write half;
- `rooms`: each room's set of member ids.

Each connection runs three tasks against it:

- the read loop decodes one line at a time and dispatches on its `ClientOperation`;
- the outbound task writes queued texts to the socket, oldest first;
- the dead-client task drops the writer of a connection whose write failed.

This project models those maps and every critical section that edits them:

- `Protocol.dfy`: the wire vocabulary.
  - `ClientId`, `Room`, `Channel`, `Message`, `ClientOperation`, `ClientMessage` and `ServerOperation`.
  - The `"<message> RESPONSE"` text, with its inverse.
- `Framing.dfy`: how a line is turned into the text given to the decoder.
  - Rust's `trim` over the Unicode White_Space set, then `trim_end_matches('\n')`.
- `Directory.dfy`: the shared state as a value, `State`, with one function per critical section.
  - The state also holds every connection's outbound queue (`queues`) and its pending dead-client notices (`notices`).
  - `Valid` is the invariant every section keeps.
  - The properties are proved as lemmas over these functions.
- `Session.dfy`: the read loop.
  - `Dispatch` is one decoded line and `Run` is a sequence of lines.
  - It also proves the loop-level properties: the sender is not excluded, the channel is ignored, a disconnect does not clean up, and a parse failure stops the loop.
- `Server.dfy`: the `Server` class.
  - Its fields are the five maps.
  - Its methods make the same edits in place, with the source's loops: the fan-out over the room's members, the removal of dead clients, the read loop, the drain loop and the removal loop.
  - Each method is proved to leave `Snapshot()` equal to the corresponding `Directory` or `Session` function of the old state, and to keep `Valid()`.
  - The exceptions are `SendToMembers` and `RemoveClients`. They are the two halves of `Broadcast` and state only the fields they change. `Broadcast` carries the `Snapshot()` equation and `Valid()`.

The environment is represented by parameters:

- whether a send into a recipient's channel fails: `sendFails`;
- whether a socket write fails: `writeFails` for the `ConnectAttempt` reply and `ok` for the outbound task;
- what the JSON decoder returns for a text: `parse`.

A writer is represented by the sequence of frames written to it so far. The frame boundaries are kept only to state order; the socket itself receives the texts back to back.

The model follows the code as written, including where a reader might expect otherwise:

- a room's channel does not filter the recipients;
- the sender receives its own message;
- `Disconnect` and a parse failure remove nothing from any map;
- a failed send removes the recipient's `clients` entry only: its room memberships and its writer stay.

A `Message` whose `clientId` is `None` is not excluded by a precondition. It is modelled as a third way for the read loop to end (`Panicked`), because the `unwrap` at `main.rs:215` ends the connection's task before any lock is taken. The state is therefore left unchanged.

## Model

| member | source | states |
|---|---|---|
| Protocol.ResponseText | rust/actor_relay_service/relay_server/src/main.rs:219 | the relayed text is the message text followed by `" RESPONSE"`: its length, its prefix and its suffix |
| Protocol.ResponseTextInjective | rust/actor_relay_service/relay_server/src/main.rs:219 | two messages give the same relayed text exactly when they are equal |
| Protocol.MessageOf | rust/actor_relay_service/relay_server/src/main.rs:219 | a text has a message exactly when it ends in `" RESPONSE"`, and relaying that message gives the text back |
| Protocol.ResponseRoundTrip | rust/actor_relay_service/relay_server/src/main.rs:219 | recovering the message from its relayed text gives the original message |
| Protocol.BackToBackAmbiguous | rust/actor_relay_service/relay_server/src/main.rs:219 | for any messages `a` and `b`, their relayed texts written one after the other equal the relayed text of the single message `a` + `" RESPONSE"` + `b`: the format has no delimiter |
| Framing.IsWhitespace | rust/actor_relay_service/relay_server/src/main.rs:198 | the characters `trim` removes: the Unicode White_Space set that Rust's `char::is_whitespace` accepts |
| Framing.TrimStart | rust/actor_relay_service/relay_server/src/main.rs:198 | the result is a suffix of the input that does not start with white space, and everything cut off is white space |
| Framing.TrimEnd | rust/actor_relay_service/relay_server/src/main.rs:198 | the result is a prefix of the input that does not end with white space, and everything cut off is white space |
| Framing.Trim | rust/actor_relay_service/relay_server/src/main.rs:198 | the trimmed text neither starts nor ends with white space |
| Framing.TrimEndNewlines | rust/actor_relay_service/relay_server/src/main.rs:199 | the result is a prefix that does not end in a newline, and only newlines were cut off |
| Framing.FrameText | rust/actor_relay_service/relay_server/src/main.rs:197-200 | the text handed to the decoder is no longer than the line and neither starts nor ends with white space |
| Framing.TrimIsSlice | rust/actor_relay_service/relay_server/src/main.rs:197-200 | the trimmed text is a contiguous piece of the line, with only white space before and after it |
| Framing.TrimIdempotent | rust/actor_relay_service/relay_server/src/main.rs:198 | trimming an already trimmed text changes nothing |
| Framing.FrameTextIsTrim | rust/actor_relay_service/relay_server/src/main.rs:197-200 | the `trim_end_matches('\n')` after `trim` never removes anything, so the decoder sees exactly the trimmed line |
| Framing.FramePadding | rust/actor_relay_service/relay_server/src/main.rs:197-200 | white space added before or after a line does not change the text that is decoded |
| Directory.EmptyIsValid | rust/actor_relay_service/relay_server/src/main.rs:119-123 | the empty server created by `main` satisfies the directory invariant |
| Directory.Recipients | rust/actor_relay_service/relay_server/src/main.rs:222-224 | the ids a message to a room is sent to: the room's members that still have a `clients` entry |
| Directory.Accept | rust/actor_relay_service/relay_server/src/main.rs:139-147 | a fresh id gets its own handle in `clients`, an empty writer and empty channels; no other entry changes, no room names it, and the invariant is kept |
| Directory.Join | rust/actor_relay_service/relay_server/src/main.rs:287-296 | membership after the join is membership before plus exactly (room, id); the room key exists afterwards; `clients`, `writers` and the channels are unchanged; the invariant is kept |
| Directory.JoinIdempotent | rust/actor_relay_service/relay_server/src/main.rs:287-296 | joining the same room twice is the same as joining once |
| Directory.Leave | rust/actor_relay_service/relay_server/src/main.rs:297-304 | membership after the leave is membership before minus exactly (room, id); an unknown room changes nothing; no room key is added or removed; the invariant is kept |
| Directory.LeaveIdempotent | rust/actor_relay_service/relay_server/src/main.rs:297-304 | leaving the same room twice is the same as leaving once |
| Directory.JoinThenLeave | rust/actor_relay_service/relay_server/src/main.rs:287-304 | join then leave removes the id but keeps the room key, even when the room is left empty |
| Directory.Append | rust/actor_relay_service/relay_server/src/main.rs:223-225 | adding a text to a set of queues keeps the set of queue keys unchanged |
| Directory.Broadcast | rust/actor_relay_service/relay_server/src/main.rs:218-242 | a member that has a `clients` entry and whose send succeeds gets the text appended to its queue; every other queue is unchanged; exactly the recipients whose send failed lose their `clients` entry; rooms and writers are unchanged; the invariant is kept |
| Directory.BroadcastSkipsNonMembers | rust/actor_relay_service/relay_server/src/main.rs:222-236 | a connection that is not a member of the room receives nothing |
| Directory.BroadcastUnknownRoom | rust/actor_relay_service/relay_server/src/main.rs:222 | a message to a room that was never joined leaves the whole state unchanged |
| Directory.BroadcastSkipsUnregistered | rust/actor_relay_service/relay_server/src/main.rs:224 | a member with no `clients` entry is skipped: its queue is unchanged and it gains no entry |
| Directory.BroadcastPrunesOnlyClients | rust/actor_relay_service/relay_server/src/main.rs:239-242 | a recipient whose send fails loses its `clients` entry but keeps its writer and every room membership |
| Directory.BroadcastLeavesStaleMember | rust/actor_relay_service/relay_server/src/main.rs:239-242 | after a failed send the room still names the id, which is no longer a recipient |
| Directory.Reregister | rust/actor_relay_service/relay_server/src/main.rs:251-258 | `clients` maps the id to its own handle afterwards; every other entry and every other map is unchanged; the invariant is kept |
| Directory.ReregisterRegistered | rust/actor_relay_service/relay_server/src/main.rs:254-257 | for a connection that is still registered, `ConnectAttempt` leaves `clients`, including its key set, unchanged |
| Directory.Approve | rust/actor_relay_service/relay_server/src/main.rs:276-285 | the approval is appended to the connection's writer exactly when the writer exists and the write succeeds; nothing else changes, and a failed write removes nothing |
| Directory.Failures | rust/actor_relay_service/relay_server/src/main.rs:166 | the count of failed writes is at most the number of writes, and it is zero exactly when every write succeeds |
| Directory.Written | rust/actor_relay_service/relay_server/src/main.rs:164-177 | the written frames plus the failures account for every queued text, and every written frame is a relayed text |
| Directory.Frames | rust/actor_relay_service/relay_server/src/main.rs:166 | the k-th frame relays the k-th text |
| Directory.Deliver | rust/actor_relay_service/relay_server/src/main.rs:160-177 | the oldest queued text leaves the queue; with a writer, it is written or a single notice is posted; without a writer, it is dropped; nothing else changes; the invariant is kept |
| Directory.Drain | rust/actor_relay_service/relay_server/src/main.rs:158-179 | the connection's queue is emptied; other connections' writers and notices, `clients` and `rooms` are unchanged; without a writer, nothing is written; the invariant is kept |
| Directory.DrainWrites | rust/actor_relay_service/relay_server/src/main.rs:160-177 | after a drain, the writer holds what it held before followed by the queued texts whose write succeeded, in enqueue order |
| Directory.DrainNotices | rust/actor_relay_service/relay_server/src/main.rs:166-175 | after a drain, the dead-client channel gains one notice naming the connection per failed write |
| Directory.WrittenAppend | rust/actor_relay_service/relay_server/src/main.rs:160-177 | what two consecutive batches write is what the first writes, followed by what the second writes |
| Directory.WrittenAll | rust/actor_relay_service/relay_server/src/main.rs:160-177 | when no write fails, every queued text reaches the socket, in order |
| Directory.BroadcastThenDrain | rust/actor_relay_service/relay_server/src/main.rs:218-236 | a relayed text reaches the recipient's socket after every text queued before it, when every write succeeds |
| Directory.RemoveDead | rust/actor_relay_service/relay_server/src/main.rs:182-187 | exactly the writers named by the pending notices are removed; the remaining writers, `clients`, `rooms` and queues are unchanged; the channel is emptied; the invariant is kept |
| Directory.RemoveDeadOwnWriter | rust/actor_relay_service/relay_server/src/main.rs:183-185 | removal drops this connection's own writer when a notice is pending, and drops nothing otherwise |
| Directory.RemoveDeadAbsent | rust/actor_relay_service/relay_server/src/main.rs:185 | removing a writer that is already gone is a no-op on `writers` |
| Directory.RemoveDeadIdempotent | rust/actor_relay_service/relay_server/src/main.rs:182-187 | running the removal task twice is the same as running it once |
| Directory.DrainFailureThenRemove | rust/actor_relay_service/relay_server/src/main.rs:166-187 | after a failed write and the removal task, the connection has no writer but keeps its `clients` entry and its rooms |
| Session.Dispatch | rust/actor_relay_service/relay_server/src/main.rs:203-310 | the loop continues exactly for a decoded operation other than `Disconnect` and a `Message` with no `clientId`; it stops with `ParseFailed` exactly on a decode error, with `ClientDisconnected` exactly on `Disconnect`, and with `Panicked` exactly on a `Message` with no `clientId`; a stop changes nothing; the queue keys are kept; other ids' memberships are unchanged; the invariant is kept |
| Session.Step | rust/actor_relay_service/relay_server/src/main.rs:193-202 | one pass of the loop decodes the trimmed line; it stops with `ParseFailed` exactly when that text fails to decode, continues exactly when the decoded operation keeps the loop running, changes nothing when it stops, and keeps the invariant |
| Session.Run | rust/actor_relay_service/relay_server/src/main.rs:192-311 | over any sequence of lines, the queue keys are kept, room keys are only added, other ids' memberships are unchanged, and the invariant is kept |
| Session.ChannelIgnored | rust/actor_relay_service/relay_server/src/main.rs:205-236 | changing a message's channel changes nothing about dispatching it |
| Session.ClaimedIdIgnored | rust/actor_relay_service/relay_server/src/main.rs:204-310 | a present `clientId` has no influence: the session's own id is used |
| Session.MessageDelivery | rust/actor_relay_service/relay_server/src/main.rs:218-242 | a `Message` with a `clientId` appends exactly `message + " RESPONSE"` to every registered member whose send succeeds, and to no other queue; exactly the recipients whose send fails lose their `clients` entry, other entries are unchanged; rooms, writers and notices are unchanged |
| Session.SenderReceivesOwnMessage | rust/actor_relay_service/relay_server/src/main.rs:223-225 | the sender is not excluded: it gets its own message when it is a registered member |
| Session.ConnectAttemptApproves | rust/actor_relay_service/relay_server/src/main.rs:248-285 | `ConnectAttempt`, whatever `clientId` is claimed and whether or not the write fails, continues the loop. The own handle is re-registered, only the own id can be added to the key set of `clients`, and for a registered session `clients` is unchanged. `ClientConnectApproved(own id)` is appended to the writer when the writer exists and the write succeeds, and otherwise nothing is written. No writer is removed, and rooms, queues and notices are unchanged |
| Session.RoomJoinDispatch | rust/actor_relay_service/relay_server/src/main.rs:287-296 | `RoomJoin`, whatever `clientId` is claimed, continues the loop, adds exactly the session's own id to exactly that room (creating its key), and leaves `clients`, `writers` and the channels unchanged |
| Session.RoomLeaveDispatch | rust/actor_relay_service/relay_server/src/main.rs:297-304 | `RoomLeave`, whatever `clientId` is claimed, continues the loop, removes exactly the session's own id from exactly that room, keeps the room keys, and leaves `clients`, `writers` and the channels unchanged |
| Session.DisconnectKeepsMembership | rust/actor_relay_service/relay_server/src/main.rs:244-247 | `Disconnect` ends the loop and the session stays in its rooms and in `clients` |
| Session.ParseFailureIsolated | rust/actor_relay_service/relay_server/src/main.rs:306-309 | a line that fails to decode ends the loop with the state unchanged, whatever lines follow |
| Session.EndOfInputStops | rust/actor_relay_service/relay_server/src/main.rs:192-202 | at end of input the empty buffer frames to the empty text; with a decoder that rejects the empty text, the loop ends with `ParseFailed` and the state unchanged |
| Session.RunAppend | rust/actor_relay_service/relay_server/src/main.rs:192-311 | handling two batches of lines is handling the first batch, then, if the loop is still running, the second |
| RelayServer.Server.constructor | rust/actor_relay_service/relay_server/src/main.rs:119-123 | the new server is empty and valid |
| RelayServer.Server.Accept | rust/actor_relay_service/relay_server/src/main.rs:139-147 | the fields become `Directory.Accept` of the old state |
| RelayServer.Server.JoinRoom | rust/actor_relay_service/relay_server/src/main.rs:289-294 | the fields become `Directory.Join` of the old state |
| RelayServer.Server.LeaveRoom | rust/actor_relay_service/relay_server/src/main.rs:299-303 | the fields become `Directory.Leave` of the old state |
| RelayServer.Server.Broadcast | rust/actor_relay_service/relay_server/src/main.rs:218-242 | the fan-out loop followed by the removal loop makes the fields `Directory.Broadcast` of the old state |
| RelayServer.Server.SendToMembers | rust/actor_relay_service/relay_server/src/main.rs:222-237 | the loop over the room's members appends the text to exactly the queues of successful recipients and collects exactly the failed ones |
| RelayServer.Server.RemoveClients | rust/actor_relay_service/relay_server/src/main.rs:240-242 | the loop removes exactly the collected ids from `clients` and nothing else |
| RelayServer.Server.Reregister | rust/actor_relay_service/relay_server/src/main.rs:253-257 | the fields become `Directory.Reregister` of the old state |
| RelayServer.Server.SendApproval | rust/actor_relay_service/relay_server/src/main.rs:261-285 | the reply is `Approval(id)`, and the fields become `Directory.Approve` of the old state |
| RelayServer.Server.Dispatch | rust/actor_relay_service/relay_server/src/main.rs:203-310 | the new fields and the loop control are `Session.Dispatch` of the old state |
| RelayServer.Server.ReadLoop | rust/actor_relay_service/relay_server/src/main.rs:192-311 | the read loop ends with the fields and the outcome of `Session.Run` over the lines read |
| RelayServer.Server.Drain | rust/actor_relay_service/relay_server/src/main.rs:158-179 | the drain loop ends with the fields equal to `Directory.Drain` of the old state |
| RelayServer.Server.TakeOne | rust/actor_relay_service/relay_server/src/main.rs:160-177 | one pass of the drain loop makes the fields `Directory.Deliver` of the old state |
| RelayServer.Server.RemoveDeadClients | rust/actor_relay_service/relay_server/src/main.rs:182-187 | the removal loop ends with the fields equal to `Directory.RemoveDead` of the old state |

## Left out

- The tokio runtime is not modelled: `TcpListener`, `tokio::spawn`, the `Arc<Mutex<_>>` lock and `await`.
  - Each critical section is one atomic function or method.
  - The interleaving of a connection's three tasks with each other and with other connections is not modelled.
  - A drain and a removal are therefore separate steps. Between them, a failed writer is still written to and its notices stay pending.
- JSON decoding and encoding with serde are not modelled.
  - The decoder is the parameter `parse`, and the reply is the `ServerOperation` value itself.
  - The `continue` taken when serialising the reply fails is not modelled, because serialising that enum cannot fail.
- `String::from_utf8_lossy` is not modelled: a line is already a string of characters.
- `ClientId::new` (UUID v4 generation) is not modelled. Freshness is the precondition `id !in queues` of `Accept`.
- Socket reads and writes are not modelled. Each line read and each write outcome is a parameter, and a partial write is not distinguished from a failed one.
- The dead-client channel's capacity of 100 is not modelled. The channel is an unbounded sequence, so the model cannot show the outbound task blocking on a full channel while it holds the lock.
- The outbound channel's sender handle is not modelled as an object: a `Client`'s `tx` names the connection whose queue it feeds.
- The end of the outbound and removal tasks when their channels close is not modelled.
- Frame delimiting on the socket is not modelled. `write_all` at `main.rs:166` and `main.rs:278` sends the bare text or JSON with no delimiter, so consecutive frames reach the peer concatenated. For example, the texts relayed for `a` and then `b` are the same bytes as the one text relayed for `a RESPONSEb`. The model's `seq<Frame>` keeps the boundaries only to state order, and it makes no claim about what a recipient can split apart.
- Logging (`paris`, `info!`, `error!`) is not modelled.
- The `mq2dll` plugin crate and its build script are not part of this model: they contain no relay logic.
- `Directory.Drain` assumes one outcome per queued text (`|ok|` equals the queue length). Texts that arrive during the drain are a later drain.

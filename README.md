# loady Session, modelled in Dafny

`loady.Session` is the transport of a load-generation client. Each Agent owns one
session, which turns a TCP socket into an asynchronous byte channel with three jobs:

- **Connect.** `Connect` creates the socket and starts the handshake. `OnConnectCompleted`
  either arms the first receive or reports the failure to the Agent.
- **Send.** Writes are coalesced in two alternating `MemoryStream`s:
  - `Send` appends to the *accumulation* stream and tries a flush.
  - `RequestSend` claims the `sending` flag, exchanges the two roles (`SwitchSendStream`)
    and transmits the whole new *in-flight* stream.
  - `OnSendCompleted` releases the flag, rewinds the in-flight stream and flushes again.
- **Receive.** Each receive of up to 1024 bytes that delivers bytes is appended to
  `recvStream`, and the stream is handed to the Agent. Every successful completion re-arms
  the receive. A failed one is only logged and disconnects.

## How the model is built

- **`streams.dfy` (`Streams`).** A `MemoryStream` is a value holding its bytes and its
  cursor. Writing overwrites or extends at the cursor. `Seek(0)` moves the cursor and
  does not truncate. Only the bytes in front of the cursor are ever sent or handed on.
- **`coalescer.dfy` (`Coalescing`).** The outbound state is one value: the flag, both
  buffers, and the two roles as buffer names. The roles are proved never to alias.
  Conservation is proved here: the sent bytes, then the in-flight bytes, then the queued
  bytes, are every payload in order.
- **`model.dfy` (`SessionModel`).** The whole session is a value.
  - The socket and the Agent are replaced by a log of the calls the session makes into
    them: `BeginConnect`, `BeginSend(bytes)`, `BeginReceive(1024)`, `AgentRecv(stream)`,
    `AgentFail` and `Close`.
  - Each event is a step function. This covers every public call, every completion
    callback, and the private `RequestSend` and `RequestRecv`.
  - Whether the socket accepts a `BeginSend` or `BeginReceive` is a parameter (`accepts`).
    On a socket that is missing or not connected, the call always throws.
  - A ghost ledger records the payloads written, the bytes of completed transmits, the
    chunks received, whether a receive is armed, the completion count, and whether a
    transmit ever failed.
- **`invariant.dfy` (`SessionInvariant`).** Every step keeps the session invariant.
- **`properties.dfy` (`SessionProperties`).** Holds what each event does, and what holds
  after any sequence of events from a new session.
- **`session.dfy` (`Sessions`).** The `Session` class keeps the source's fields and
  updates them in place, statement by statement as the source does.
  - Every method that changes the session ensures that the object's new state is the
    matching step function applied to its old state. There are two exceptions.
    `SwitchSendStream` only runs inside `RequestSend`, so its contract states just the
    exchange of the two role fields. `IsConnected` changes nothing and is a predicate on
    the phase.
  - Every public method and every completion keeps `Valid()`, the session invariant.

Where the documented design and the code disagree, the model follows the code:

- A failed handshake does not close the socket. `Disconnect` finds it not connected and
  does nothing, so the session stays in `Closed` with the socket allocated.
- A failed receive completion is only logged. The Agent is not told.
- A failure to issue a send is reported to the Agent (`agent.fail`). It is not only logged.

## Model

| member | source | states |
|---|---|---|
| Streams.Write | loady/Session.cs:80 | writing `count` bytes leaves a valid stream whose cursor advanced by exactly `count` |
| Streams.WriteAppends | loady/Session.cs:178 | a write appends exactly `buffer[..count]` after the bytes before the cursor, grows the data to the larger of its old length and the new cursor, and keeps the stale bytes beyond the new cursor |
| Streams.Rewind | loady/Session.cs:205 | `Seek(0)` leaves a valid stream with its cursor at 0 |
| Streams.RewindEmpties | loady/Session.cs:205 | after `Seek(0)` nothing is in front of the cursor, yet the data is not truncated |
| Coalescing.StreamId.Other | loady/Session.cs:220-232 | the other role is always a different buffer |
| Coalescing.Append | loady/Session.cs:80 | writing into the accumulation buffer keeps the roles distinct and the buffers valid |
| Coalescing.AppendSpec | loady/Session.cs:80 | the accumulation buffer grows by exactly `payload[..length]`; the other buffer, the roles and the flag are untouched |
| Coalescing.Flush | loady/Session.cs:109-138 | a flush attempt keeps the roles distinct and a set flag always names an in-flight buffer |
| Coalescing.FlushSpec | loady/Session.cs:109-123 | with a transmit in flight or nothing queued, nothing changes; otherwise the roles are exchanged, the queued bytes become the in-flight bytes, and the flag says whether the transmit was accepted; no buffer is touched |
| Coalescing.Complete | loady/Session.cs:195-205 | a completion releases the flag and keeps the roles distinct |
| Coalescing.CompleteSpec | loady/Session.cs:195-205 | after a completion nothing is in flight, the queued bytes are unchanged, and the rewound buffer keeps its stale bytes |
| Coalescing.InitialConserved | loady/Session.cs:30-41 | a new session has distinct roles, nothing queued, and conserves the empty history |
| Coalescing.AppendConserves | loady/Session.cs:80 | a write keeps conservation with its payload appended to the history |
| Coalescing.FlushTracks | loady/Session.cs:109-138 | a flush keeps the account of the transmits: all have completed but the last, which is outstanding exactly while the flag is set and carries the in-flight bytes |
| Coalescing.FlushConserves | loady/Session.cs:116-138 | each exchange hands the writer an empty buffer; an accepted flush keeps conservation, and its transmit carries exactly the queued bytes |
| Coalescing.CompleteConserves | loady/Session.cs:195-207 | a completed transmit moves the in-flight bytes to the sent bytes, keeping conservation and the account of the transmits |
| Coalescing.InitialSettled | loady/Session.cs:30-41 | the outbound invariant holds of a new session |
| Coalescing.AppendKeeps | loady/Session.cs:78-85 | a write keeps the outbound invariant |
| Coalescing.FlushSettles | loady/Session.cs:107-148 | every flush attempt leaves the outbound invariant with nothing waiting unsent; a transmit that fails to issue is recorded as a fault |
| Coalescing.CompleteKeeps | loady/Session.cs:193-207 | a successful completion keeps the outbound invariant |
| Coalescing.FailedKeeps | loady/Session.cs:209-217 | a failed completion releases the flag and records a fault, after which conservation is no longer claimed |
| Coalescing.QuiescentDeliveredAll | loady/Session.cs:107-148 | with nothing in flight or queued, the transmits carry every payload in order, each exactly once |
| SessionModel.Disconnected | loady/Session.cs:65-71 | `Disconnect` never leaves the socket connected and changes nothing on a socket that is not connected |
| SessionModel.ConnectStep | loady/Session.cs:44-58 | `Connect` keeps the representation well formed |
| SessionModel.DisconnectStep | loady/Session.cs:65-71 | `Disconnect` keeps the representation well formed |
| SessionModel.RequestSendStep | loady/Session.cs:107-148 | `RequestSend` keeps the representation well formed |
| SessionModel.SendStep | loady/Session.cs:78-85 | `Send` keeps the representation well formed |
| SessionModel.SendCompletedStep | loady/Session.cs:193-218 | `OnSendCompleted` keeps the representation well formed |
| SessionModel.RequestRecvStep | loady/Session.cs:87-105 | `RequestRecv` keeps the representation well formed |
| SessionModel.ConnectCompletedStep | loady/Session.cs:150-165 | `OnConnectCompleted` keeps the representation well formed |
| SessionModel.RecvCompletedStep | loady/Session.cs:167-191 | `OnRecvCompleted` keeps the representation well formed |
| SessionInvariant.FreshInv | loady/Session.cs:25-42 | the session invariant holds of a new session |
| SessionInvariant.DisconnectPreserves | loady/Session.cs:65-71 | `Disconnect` keeps the session invariant and never adds a transmit |
| SessionInvariant.ConnectPreserves | loady/Session.cs:44-58 | `Connect` keeps the session invariant |
| SessionInvariant.RequestSendPreserves | loady/Session.cs:107-148 | after any flush attempt the session invariant holds, including "nothing waits without a transmit outstanding" |
| SessionInvariant.SendPreserves | loady/Session.cs:78-85 | `Send` keeps the session invariant |
| SessionInvariant.SendCompletedPreserves | loady/Session.cs:193-218 | a send completion, successful or not, keeps the session invariant |
| SessionInvariant.RequestRecvPreserves | loady/Session.cs:87-105 | arming a receive keeps the session invariant |
| SessionInvariant.ConnectCompletedPreserves | loady/Session.cs:150-165 | a connect completion, successful or not, keeps the session invariant |
| SessionInvariant.RecvCompletedPreserves | loady/Session.cs:167-191 | a receive completion keeps the session invariant: the receive stream holds exactly the chunks received, in order |
| SessionProperties.Step | loady/Session.cs:44-218 | every enabled event keeps the representation well formed |
| SessionProperties.Run | loady/Session.cs:44-218 | every admissible sequence of events keeps the representation well formed |
| SessionProperties.StepPreserves | loady/Session.cs:44-218 | every enabled event keeps the session invariant |
| SessionProperties.RunPreserves | loady/Session.cs:44-218 | every admissible sequence of events keeps the session invariant |
| SessionProperties.Delivered | loady/Session.cs:78-218 | after any events from a new session: <br>• the receive stream is every chunk in order; <br>• at most one transmit is outstanding, while the flag is set, and it carries the in-flight bytes; <br>• the roles are distinct; <br>• unless a transmit failed, sent + in-flight + queued is every payload in order, and once nothing is in flight every payload has been transmitted |
| SessionProperties.NeverReconnects | loady/Session.cs:44-71 | once a socket exists, including after a failed connect, the session never returns to having none, so `Connect` is never enabled again; `Closed` is terminal: no event leaves it, and the session is never connected again |
| SessionProperties.ConnectFailureFinal | loady/Session.cs:159-163 | after a failed handshake, whatever events follow, the session stays closed and `IsConnected()` answers false |
| SessionProperties.ConnectStarts | loady/Session.cs:44-58 | `Connect` records host and port, calls `BeginConnect` once, and touches nothing else; the session is not yet connected |
| SessionProperties.DisconnectIdempotent | loady/Session.cs:65-71 | `Disconnect` twice is `Disconnect` once; it closes only a connected socket, and is a no-op otherwise |
| SessionProperties.ConnectFailureReported | loady/Session.cs:159-163 | a failed handshake calls `agent.fail` once, closes nothing, and leaves the session closed |
| SessionProperties.ConnectSuccessArms | loady/Session.cs:155-157 | a completed handshake arms a 1024-byte receive, or reports the throw to the Agent and closes |
| SessionProperties.RequestSendIdle | loady/Session.cs:109-121 | with a transmit in flight, or nothing queued, `RequestSend` changes nothing |
| SessionProperties.FlushHandsEmptyBuffer | loady/Session.cs:123-138 | a flush that goes ahead on a fault-free session exchanges the roles, hands the writer an empty buffer, and puts exactly the queued bytes in flight |
| SessionProperties.SendQueuesOrTransmits | loady/Session.cs:73-85 | `Send` records exactly `payload[..length]`: <br>• with a transmit in flight it only queues the bytes, in order, and calls nothing; <br>• otherwise a non-empty write is transmitted at once, on its own; <br>• if issuing throws, `agent.fail` is called, the socket is disconnected, and a fault is recorded |
| SessionProperties.WritesCoalesce | loady/Session.cs:78-85 | a first write is transmitted alone; two writes made while it is outstanding go out together in one transmit, in order, when it completes |
| SessionProperties.WritesQueueBehind | loady/Session.cs:109-112 | writes made while a transmit is outstanding queue in order and call nothing |
| SessionProperties.CompletionTransmitsQueued | loady/Session.cs:195-207 | on a connected session, a successful completion transmits everything queued meanwhile, in one transmit |
| SessionProperties.FailedSendResurfaces | loady/Session.cs:123-147 | a `Send` made during the handshake is reported as failed, yet its bytes stay in the unrewound in-flight buffer; after the handshake completes they are transmitted again, behind a later write and in front of the next one |
| SessionProperties.SendCompletionFlushes | loady/Session.cs:195-207 | a successful completion rewinds the in-flight buffer, keeps the queued bytes, then flushes |
| SessionProperties.SendCompletionFailureLogged | loady/Session.cs:209-217 | a failed send completion does not call the Agent, disconnects, leaves the in-flight buffer unrewound, and records a fault |
| SessionProperties.RecvAppends | loady/Session.cs:172-183 | a receive of 1 to 1024 bytes appends exactly those bytes after the stream's contents, hands the stream to the Agent once, then re-arms |
| SessionProperties.RecvEmptyReArms | loady/Session.cs:174-183 | a zero-length receive appends nothing and does not call the Agent, but still re-arms |
| SessionProperties.RecvFailureLogged | loady/Session.cs:185-189 | a failed receive completion does not call the Agent; it disconnects and leaves the stream as it was |
| Sessions.Session.constructor | loady/Session.cs:36-42 | a new session is the initial model value: both buffers empty, the first one the accumulation target; the invariant holds |
| Sessions.Session.Connect | loady/Session.cs:44-58 | requires that no socket exists, returns true, takes the `Connect` step and keeps the invariant |
| Sessions.Session.IsConnected | loady/Session.cs:60-63 | true exactly when a socket exists and is connected |
| Sessions.Session.Disconnect | loady/Session.cs:65-71 | takes the `Disconnect` step and keeps the invariant |
| Sessions.Session.Send | loady/Session.cs:73-76 | sends the whole payload: the `Send` step with `length = payload.Length`; returns true |
| Sessions.Session.SendPrefix | loady/Session.cs:78-85 | writes into the accumulation buffer in place, then flushes; returns true; takes the `Send` step and keeps the invariant |
| Sessions.Session.RequestSend | loady/Session.cs:107-148 | claims, tests, exchanges and transmits (or fails and disconnects) in place, and takes the `RequestSend` step |
| Sessions.Session.SwitchSendStream | loady/Session.cs:220-232 | the in-flight role takes the old accumulation buffer and the accumulation role takes the other one |
| Sessions.Session.OnSendCompleted | loady/Session.cs:193-218 | releases the flag, rewinds the in-flight buffer in place and flushes, or disconnects on failure; takes the completion step and keeps the invariant |
| Sessions.Session.RequestRecv | loady/Session.cs:87-105 | arms a receive, or reports the throw to the Agent and disconnects; takes the `RequestRecv` step |
| Sessions.Session.OnConnectCompleted | loady/Session.cs:150-165 | arms the first receive, or reports the failure and disconnects; takes the completion step and keeps the invariant |
| Sessions.Session.OnRecvCompleted | loady/Session.cs:167-191 | appends a non-empty chunk to `recvStream` in place, hands it to the Agent and re-arms, or disconnects on failure; takes the completion step and keeps the invariant |

## Left out

- Real socket I/O is not modelled. Each `Begin*` call is an entry in the call log, and
  each `End*` call is the outcome given to a completion method.
- `socket.Connected` is the session's phase, and the phase changes only through the
  session's own steps. In the source it is the live socket state. After a failed I/O it
  may already be false, and `Disconnect()` then skips `Close()`. So where the model logs
  a `Close` after a failure, the source may make no such call. This affects
  `SessionProperties.RecvFailureLogged`, `SessionProperties.SendCompletionFailureLogged`,
  and the failure paths of `RequestSend` and `RequestRecv`.
- The Agent is assumed to leave `recvStream` alone. `agent.Recv(recvStream)` at line 180
  hands the Agent the live stream, and the model logs only its contents. In the source
  the Agent may read, consume and compact the stream. The next write at line 178 then
  lands wherever the Agent left `Position`, and may overwrite bytes it has not parsed.
  `SessionInvariant.RecvCompletedPreserves`, `SessionProperties.RecvAppends` and the
  receive clause of `SessionProperties.Delivered` hold only under this assumption.
- `IPAddress.Parse` and socket construction are not modelled, and neither is
  `BeginConnect` throwing. These are .NET library calls. `Connect` is taken to start the
  attempt.
- The `agent` field and `Contract.Assert(agent != null)` are not modelled. `Agent` is
  not part of this model; its two entry points are the `AgentRecv` and `AgentFail` log
  entries. `agent.Recv` throwing is not modelled.
- The `recvBuffer` array is not modelled. A receive completion carries the bytes read.
- NLog logging (`logger.Debug`, `logger.Warn`) is not modelled, because it has no effect
  on the session.
- `Interlocked.Exchange`, `volatile` and concurrency are not modelled. Events run one at
  a time. In the source, the flag is released at line 195, before the rewind at line 205,
  so a `Send` on another thread can claim the flag in between. It would then swap onto a
  buffer that still holds the bytes just sent. The sequential model cannot show that
  interleaving.
- Sessions.Session.OnSendCompleted: a partial send is not modelled. A successful
  completion is taken to have sent the whole requested length; the byte count that
  `EndSend` returns is never compared with it.
- SessionProperties.Delivered: no ordering or conservation is claimed once a transmit
  has failed to issue or to complete. On those paths the in-flight buffer is not rewound.
  A later flush can then transmit bytes out of order or twice. This is reachable:
  `SessionProperties.FailedSendResurfaces` shows a `Send` made during the handshake that
  is reported to the Agent as failed. Its bytes are transmitted after the handshake
  completes, out of order and behind a later write.
- Sessions.Session.Disconnect: keeps the invariant only when it held before. The
  disconnects inside `RequestSend` and `RequestRecv` run mid-operation, when the
  invariant does not hold.
- Sessions.Session.RequestSend: does not promise the session invariant. It runs inside
  `Send` and `OnSendCompleted`, whose own contracts carry the invariant.
- Sessions.Session.RequestRecv: does not promise the session invariant, for the same
  reason.
- Sessions.Session.SwitchSendStream: does not promise the session invariant, for the
  same reason.
- Integer widths are unbounded. `length` is a `nat` no larger than the payload, because
  the source's `MemoryStream.Write` throws on anything else. Lengths are never large
  enough to overflow.

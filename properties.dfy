/**
 * What a session promises, stated over the step functions: what each event
 * does to the buffers, the streams and the calls made, and what holds after
 * any sequence of events from a new session.
 */
module SessionProperties {
  import opened Streams
  import opened Coalescing
  import opened SessionModel
  import opened SessionInvariant

  /** An event a session reacts to: a call from its owner or a completion. */
  datatype Event =
    | ConnectCall(host: string, port: ushort)
    | DisconnectCall
    | SendCall(payload: seq<byte>, length: nat, accepts: bool)
    | ConnectCompleted(ok: bool, accepts: bool)
    | SendCompleted(ok: bool, accepts: bool)
    | RecvCompleted(result: Completion<seq<byte>>, accepts: bool)

  /**
   * Whether the event can happen now: `Connect` only while no socket
   * exists, `Send` only with a length within the payload, and a completion
   * only for an operation that is outstanding, a receive delivering no more
   * than it asked for.
   */
  predicate Enabled(m: Model, e: Event) {
    match e
    case ConnectCall(_, _) => m.phase == Idle
    case DisconnectCall => true
    case SendCall(payload, length, _) => length <= |payload|
    case ConnectCompleted(_, _) => m.phase == Connecting
    case SendCompleted(_, _) => m.out.sending
    case RecvCompleted(result, _) => m.ledger.recvPending && (result.Done? ==> |result.value| <= RecvBufferSize)
  }

  /** The session after one event. */
  function Step(m: Model, e: Event): (r: Model)
    requires WellFormed(m) && Enabled(m, e)
    ensures WellFormed(r)
  {
    match e
    case ConnectCall(host, port) => ConnectStep(m, host, port)
    case DisconnectCall => DisconnectStep(m)
    case SendCall(payload, length, accepts) => SendStep(m, payload, length, accepts)
    case ConnectCompleted(ok, accepts) => ConnectCompletedStep(m, ok, accepts)
    case SendCompleted(ok, accepts) => SendCompletedStep(m, ok, accepts)
    case RecvCompleted(result, accepts) => RecvCompletedStep(m, result, accepts)
  }

  /** Whether every event of the sequence is enabled when it comes. */
  predicate Admissible(m: Model, events: seq<Event>)
    requires WellFormed(m)
    decreases |events|
  {
    events == [] || (Enabled(m, events[0]) && Admissible(Step(m, events[0]), events[1..]))
  }

  /** The session after a sequence of events. */
  function Run(m: Model, events: seq<Event>): (r: Model)
    requires WellFormed(m) && Admissible(m, events)
    ensures WellFormed(r)
    decreases |events|
  {
    if events == [] then m else Run(Step(m, events[0]), events[1..])
  }

  lemma StepPreserves(m: Model, e: Event)
    requires WellFormed(m) && Inv(m) && Enabled(m, e)
    ensures Inv(Step(m, e))
  {
    match e
    case ConnectCall(host, port) => ConnectPreserves(m, host, port);
    case DisconnectCall => DisconnectPreserves(m);
    case SendCall(payload, length, accepts) => SendPreserves(m, payload, length, accepts);
    case ConnectCompleted(ok, accepts) => ConnectCompletedPreserves(m, ok, accepts);
    case SendCompleted(ok, accepts) => SendCompletedPreserves(m, ok, accepts);
    case RecvCompleted(result, accepts) => RecvCompletedPreserves(m, result, accepts);
  }

  lemma {:induction false} RunPreserves(m: Model, events: seq<Event>)
    requires WellFormed(m) && Inv(m) && Admissible(m, events)
    ensures Inv(Run(m, events))
    decreases |events|
  {
    if events != [] {
      StepPreserves(m, events[0]);
      RunPreserves(Step(m, events[0]), events[1..]);
    }
  }

  /**
   * After any events from a new session: the receive stream holds every
   * chunk received, in order; every transmit issued has completed but for
   * at most one, which is outstanding exactly while the flag is set and
   * carries the in-flight bytes; the two buffer roles are distinct; and,
   * unless a transmit has failed, no byte written is lost, reordered or
   * duplicated, and once nothing is in flight every payload has been
   * handed to the socket.
   */
  lemma Delivered(events: seq<Event>)
    requires Admissible(Fresh, events)
    ensures var r := Run(Fresh, events);
      && r.recv.Contents() == Flatten(r.ledger.chunks)
      && |Transmits(r.calls)| == r.ledger.completions + (if r.out.sending then 1 else 0)
      && (r.out.sending ==> Transmits(r.calls)[|Transmits(r.calls)| - 1] == r.out.InFlight())
      && (r.out.inflight.Some? ==> r.out.inflight.value != r.out.accum)
      && (!r.ledger.fault ==>
            && r.ledger.sent + r.out.InFlight() + r.out.Queued() == Flatten(r.ledger.payloads)
            && Flatten(Transmits(r.calls)) == r.ledger.sent + r.out.InFlight())
      && (!r.ledger.fault && !r.out.sending ==> Flatten(Transmits(r.calls)) == Flatten(r.ledger.payloads))
  {
    FreshInv();
    RunPreserves(Fresh, events);
    var r := Run(Fresh, events);
    if !r.ledger.fault && !r.out.sending {
      QuiescentDeliveredAll(r.out, r.ledger.sent, r.ledger.payloads, Transmits(r.calls));
    }
  }

  /**
   * Once a socket exists it is never dropped, so `Connect` is never enabled
   * again; and `Closed` is terminal: no event leaves it, so the session is
   * never connected again.
   */
  lemma {:induction false} NeverReconnects(m: Model, events: seq<Event>)
    requires WellFormed(m) && Admissible(m, events) && m.phase != Idle
    ensures Run(m, events).phase != Idle
    ensures forall host, port :: !Enabled(Run(m, events), ConnectCall(host, port))
    ensures m.phase == Closed ==> Run(m, events).phase == Closed && !IsConnected(Run(m, events))
    decreases |events|
  {
    if events != [] {
      NeverReconnects(Step(m, events[0]), events[1..]);
    }
  }

  /** `Connect` records the endpoint and starts the handshake. */
  lemma ConnectStarts(m: Model, host: string, port: ushort)
    requires m.phase == Idle
    ensures var r := ConnectStep(m, host, port);
      && r.phase == Connecting && !IsConnected(r)
      && r.host == host && r.port == port
      && r.calls == m.calls + [BeginConnect(host, port)]
      && r.out == m.out && r.recv == m.recv && r.ledger == m.ledger
  {
  }

  /**
   * `Disconnect` closes a connected socket once and otherwise does
   * nothing, so calling it twice is the same as calling it once.
   */
  lemma DisconnectIdempotent(m: Model)
    ensures DisconnectStep(DisconnectStep(m)) == DisconnectStep(m)
    ensures !IsConnected(DisconnectStep(m))
    ensures IsConnected(m) ==> DisconnectStep(m).calls == m.calls + [Close]
    ensures !IsConnected(m) ==> DisconnectStep(m) == m
  {
  }

  /** A failed handshake is reported to the Agent and leaves the socket unconnected for good. */
  lemma ConnectFailureReported(m: Model, accepts: bool)
    requires m.phase == Connecting
    ensures var r := ConnectCompletedStep(m, false, accepts);
      && r.phase == Closed
      && r.calls == m.calls + [AgentFail]
      && r.out == m.out && r.recv == m.recv && r.ledger == m.ledger
  {
  }

  /**
   * After a failed handshake the session is closed for good: whatever
   * events follow, `IsConnected()` answers false.
   */
  lemma ConnectFailureFinal(m: Model, accepts: bool, events: seq<Event>)
    requires WellFormed(m) && m.phase == Connecting
    requires Admissible(ConnectCompletedStep(m, false, accepts), events)
    ensures Run(ConnectCompletedStep(m, false, accepts), events).phase == Closed
    ensures !IsConnected(Run(ConnectCompletedStep(m, false, accepts), events))
  {
    NeverReconnects(ConnectCompletedStep(m, false, accepts), events);
  }

  /** A completed handshake arms the first receive, or reports that arming it threw. */
  lemma ConnectSuccessArms(m: Model, accepts: bool)
    requires m.phase == Connecting
    ensures var r := ConnectCompletedStep(m, true, accepts);
      && (accepts ==> r.phase == Connected && r.ledger.recvPending
                      && r.calls == m.calls + [BeginReceive(RecvBufferSize)])
      && (!accepts ==> r.phase == Closed && r.calls == m.calls + [AgentFail, Close])
  {
  }

  /**
   * `RequestSend` with a transmit in flight, or with nothing queued,
   * changes nothing: the flag it claimed is released at once.
   */
  lemma RequestSendIdle(m: Model, accepts: bool)
    requires m.out.Shaped()
    requires m.out.sending || m.out.Queued() == []
    ensures RequestSendStep(m, accepts) == m
  {
  }

  /**
   * A flush that goes ahead (right after a write or a completion, the only
   * times something is queued with no transmit in flight) on a session
   * without a failed transmit exchanges the roles, hands the writer an empty buffer, and transmits
   * exactly the bytes that were queued, all of them.
   */
  lemma FlushHandsEmptyBuffer(m: Model, accepts: bool)
    requires Consistent(m) && !m.ledger.fault
    requires Flushes(m.out)
    ensures var r := RequestSendStep(m, accepts);
      && r.out.accum == m.out.accum.Other()
      && r.out.inflight == Some(m.out.accum)
      && r.out.Queued() == []
      && r.out.InFlight() == m.out.Queued()
  {
    FlushSpec(m.out, m.phase == Connected && accepts);
    FlushConserves(m.out, m.phase == Connected && accepts, m.ledger.sent, m.ledger.payloads, Transmits(m.calls));
  }

  /**
   * `Send(payload, length)` records exactly the first `length` bytes.
   * With a transmit in flight they are only queued behind what is already
   * queued; with none, and something to send, they are transmitted at once
   * on their own, or, if issuing throws, the Agent is told, the session is
   * disconnected and a fault is recorded.
   */
  lemma SendQueuesOrTransmits(m: Model, payload: seq<byte>, length: nat, accepts: bool)
    requires Inv(m) && !m.ledger.fault
    requires length <= |payload|
    ensures var r := SendStep(m, payload, length, accepts);
      && r.ledger.payloads == m.ledger.payloads + [payload[..length]]
      && (m.out.sending ==>
            && r.out.Queued() == m.out.Queued() + payload[..length]
            && r.out.InFlight() == m.out.InFlight()
            && r.calls == m.calls && r.out.sending)
      && (!m.out.sending && length == 0 ==> r.calls == m.calls && r.out.Queued() == [])
      && (!m.out.sending && length > 0 && m.phase == Connected && accepts ==>
            && r.calls == m.calls + [BeginSend(payload[..length])]
            && r.out.sending && r.out.InFlight() == payload[..length] && r.out.Queued() == [])
      && (!m.out.sending && length > 0 && !(m.phase == Connected && accepts) ==>
            && r.calls == m.calls + [AgentFail] + ClosingCalls(m.phase)
            && r.ledger.fault && !r.out.sending && !IsConnected(r))
      && (m.out.sending || length == 0 || (m.phase == Connected && accepts) ==>
            r.phase == m.phase && !r.ledger.fault)
  {
    var q := Append(m.out, payload, length);
    AppendSpec(m.out, payload, length);
    if !m.out.sending && length > 0 {
      assert m.out.Queued() == [];
      assert q.Queued() == payload[..length];
      FlushSpec(q, m.phase == Connected && accepts);
      AppendConserves(m.out, payload, length, m.ledger.sent, m.ledger.payloads, Transmits(m.calls));
      FlushConserves(q, m.phase == Connected && accepts, m.ledger.sent, m.ledger.payloads + [payload[..length]], Transmits(m.calls));
    }
  }

  /**
   * Writes made while a transmit is outstanding are coalesced: on a
   * connected session with nothing in flight, a first `Send` is transmitted
   * on its own, the next two wait, and once the first transmit completes
   * they go out together in one transmit, in order.
   */
  lemma WritesCoalesce(m: Model, a: seq<byte>, b: seq<byte>, c: seq<byte>)
    requires Inv(m) && !m.ledger.fault && m.phase == Connected && !m.out.sending
    requires |a| > 0 && |b| + |c| > 0
    ensures var m1 := SendStep(m, a, |a|, true);
      var m3 := SendStep(SendStep(m1, b, |b|, true), c, |c|, true);
      && m3.calls == m.calls + [BeginSend(a)]
      && m3.out.sending
      && SendCompletedStep(m3, true, true).calls == m.calls + [BeginSend(a)] + [BeginSend(b + c)]
  {
    var m1 := SendStep(m, a, |a|, true);
    SendQueuesOrTransmits(m, a, |a|, true);
    SendPreserves(m, a, |a|, true);
    assert a[..|a|] == a;
    WritesQueueBehind(m1, b, c);
    var m3 := SendStep(SendStep(m1, b, |b|, true), c, |c|, true);
    CompletionTransmitsQueued(m3);
  }

  /**
   * On a connected session, a successful completion transmits at once,
   * in one transmit, everything queued while it was outstanding.
   */
  lemma CompletionTransmitsQueued(m: Model)
    requires Inv(m) && m.out.sending && m.phase == Connected
    requires m.out.Queued() != []
    ensures var r := SendCompletedStep(m, true, true);
      && r.calls == m.calls + [BeginSend(m.out.Queued())]
      && r.out.sending && r.out.InFlight() == m.out.Queued() && r.out.Queued() == []
  {
    SendCompletionFlushes(m, true);
    var done := m.(out := Complete(m.out),
                   ledger := m.ledger.(sent := m.ledger.sent + m.out.InFlight(),
                                       completions := m.ledger.completions + 1));
    CompleteSpec(m.out);
    FlushSpec(done.out, true);
  }

  /** Two writes made while a transmit is outstanding queue behind it, in order, and call nothing. */
  lemma WritesQueueBehind(m: Model, b: seq<byte>, c: seq<byte>)
    requires Inv(m) && !m.ledger.fault && m.out.sending && m.out.Queued() == []
    ensures var m3 := SendStep(SendStep(m, b, |b|, true), c, |c|, true);
      && Inv(m3) && !m3.ledger.fault && m3.out.sending && m3.phase == m.phase
      && m3.calls == m.calls
      && m3.out.Queued() == b + c
  {
    var m2 := SendStep(m, b, |b|, true);
    SendQueuesOrTransmits(m, b, |b|, true);
    SendPreserves(m, b, |b|, true);
    assert b[..|b|] == b;
    SendQueuesOrTransmits(m2, c, |c|, true);
    SendPreserves(m2, c, |c|, true);
    assert c[..|c|] == c;
    EmptyConcat(b, c);
  }

  lemma EmptyConcat(b: seq<byte>, c: seq<byte>)
    ensures [] + b + c == b + c
  {
  }

  /**
   * A failed transmit leaves its bytes behind.  A `Send` made while the
   * handshake is pending throws in `BeginSend` and is reported to the
   * Agent, but `Disconnect` finds nothing connected to close and the bytes
   * stay in the in-flight buffer, unrewound.  Once the handshake completes,
   * a second `Send` goes out on its own, and the buffer with the failed
   * bytes becomes the accumulation target again: a third `Send` is queued
   * behind them, and the completion transmits both together, so the peer
   * receives `b`, then `a` (already reported as failed), then `c`.
   */
  lemma FailedSendResurfaces(m: Model, a: seq<byte>, b: seq<byte>, c: seq<byte>)
    requires m.out.Shaped() && !m.out.sending && m.out.Queued() == [] && m.out.Spare() == []
    requires m.phase == Connecting
    requires |a| > 0 && |b| > 0
    ensures var m1 := SendStep(m, a, |a|, true);
      var m2 := ConnectCompletedStep(m1, true, true);
      var m3 := SendStep(m2, b, |b|, true);
      var m4 := SendStep(m3, c, |c|, true);
      && m1.calls == m.calls + [AgentFail] && m1.ledger.fault && m1.phase == Connecting
      && m2.calls == m1.calls + [BeginReceive(RecvBufferSize)]
      && m3.calls == m2.calls + [BeginSend(b)]
      && m4.calls == m3.calls
      && SendCompletedStep(m4, true, true).calls == m4.calls + [BeginSend(a + c)]
  {
    assert a[..|a|] == a && b[..|b|] == b && c[..|c|] == c;
    var q1 := Append(m.out, a, |a|);
    AppendSpec(m.out, a, |a|);
    FlushSpec(q1, false);
    var m1 := SendStep(m, a, |a|, true);
    assert m1.out == Flush(q1, false);
    assert m1.out.Queued() == [] && m1.out.InFlight() == a && !m1.out.sending;
    var m2 := ConnectCompletedStep(m1, true, true);
    assert m2.out == m1.out && m2.phase == Connected;
    var q3 := Append(m2.out, b, |b|);
    AppendSpec(m2.out, b, |b|);
    assert [] + b == b;
    assert q3.Queued() == b;
    FlushSpec(q3, true);
    var m3 := SendStep(m2, b, |b|, true);
    assert m3.out == Flush(q3, true);
    assert m3.out.Queued() == a && m3.out.sending && m3.phase == Connected;
    var q4 := Append(m3.out, c, |c|);
    AppendSpec(m3.out, c, |c|);
    var m4 := SendStep(m3, c, |c|, true);
    assert m4.out == q4 && m4.out.Queued() == a + c;
    assert m4.phase == Connected && m4.calls == m3.calls;
    CompleteSpec(m4.out);
    FlushSpec(Complete(m4.out), true);
    assert Flushes(Complete(m4.out));
  }

  /**
   * A completed transmit, on success, moves the in-flight bytes to the
   * sent bytes, rewinds the in-flight source and flushes whatever was
   * queued meanwhile.
   */
  lemma SendCompletionFlushes(m: Model, accepts: bool)
    requires Inv(m) && m.out.sending
    ensures var done := m.(out := Complete(m.out),
                           ledger := m.ledger.(sent := m.ledger.sent + m.out.InFlight(),
                                               completions := m.ledger.completions + 1));
      && done.out.InFlight() == [] && done.out.Queued() == m.out.Queued()
      && SendCompletedStep(m, true, accepts) == RequestSendStep(done, accepts)
  {
    CompleteSpec(m.out);
  }

  /**
   * A failed transmit completion is only logged: the Agent is not told,
   * the socket is disconnected, the in-flight source is not rewound, and a
   * fault is recorded.
   */
  lemma SendCompletionFailureLogged(m: Model, accepts: bool)
    requires m.out.Shaped() && m.out.sending
    ensures var r := SendCompletedStep(m, false, accepts);
      && r.calls == m.calls + ClosingCalls(m.phase)
      && r.out == m.out.(sending := false)
      && r.ledger.fault && !IsConnected(r)
  {
  }

  /**
   * A receive that delivers bytes appends them to the receive stream,
   * after what it held, hands the stream to the Agent once, and arms the
   * next receive (or reports that arming it threw).
   */
  lemma RecvAppends(m: Model, chunk: seq<byte>, accepts: bool)
    requires m.recv.Valid()
    requires 0 < |chunk| <= RecvBufferSize
    ensures var r := RecvCompletedStep(m, Done(chunk), accepts);
      && r.recv.Contents() == m.recv.Contents() + chunk
      && r.ledger.chunks == m.ledger.chunks + [chunk]
      && r.calls == m.calls + [AgentRecv(m.recv.Contents() + chunk)] + ReArm(m.phase, accepts)
      && r.out == m.out
  {
    WriteAppends(m.recv, chunk, |chunk|);
  }

  /** A zero-length receive appends nothing and tells the Agent nothing, but still re-arms. */
  lemma RecvEmptyReArms(m: Model, accepts: bool)
    requires m.recv.Valid()
    ensures var r := RecvCompletedStep(m, Done([]), accepts);
      && r.recv == m.recv && r.ledger.chunks == m.ledger.chunks
      && r.calls == m.calls + ReArm(m.phase, accepts)
      && r.out == m.out
  {
  }

  /** A failed receive is only logged, and disconnects. */
  lemma RecvFailureLogged(m: Model, accepts: bool)
    requires m.recv.Valid()
    ensures var r := RecvCompletedStep(m, Faulted, accepts);
      && r.recv == m.recv && r.ledger.chunks == m.ledger.chunks
      && r.calls == m.calls + ClosingCalls(m.phase)
      && !IsConnected(r) && !r.ledger.recvPending
  {
  }

  /** The calls `RequestRecv()` makes in phase `p`. */
  function ReArm(p: Phase, accepts: bool): (calls: seq<Call>)
    ensures |calls| > 0 && (calls[0] == BeginReceive(RecvBufferSize) <==> p == Connected && accepts)
  {
    if p == Connected && accepts then [BeginReceive(RecvBufferSize)]
    else [AgentFail] + ClosingCalls(p)
  }
}

/**
 * A per-Agent TCP session as a value: its fields, the calls it has made
 * into its socket and its Agent, and the bookkeeping needed to state what
 * it promises.  Each event the session reacts to is a step function from
 * one such value to the next; the lemmas here prove what the steps keep
 * and what they deliver.
 *
 * The socket and the Agent are outside the model.  Every call the session
 * makes into them is appended to `calls`, and every asynchronous completion
 * is a step of its own, run atomically.  Whether the socket accepts a
 * `BeginSend` or `BeginReceive` is the `accepts` parameter; on a socket
 * that does not exist or is not connected these calls always throw.
 */
module SessionModel {
  import opened Streams
  import opened Coalescing

  /** The most bytes one receive may deliver (the size of `recvBuffer`). */
  const RecvBufferSize: nat := 1024

  type ushort = x: int | 0 <= x < 0x1_0000

  /**
   * The socket as the session sees it.  Idle: no socket yet.  Connecting:
   * the handshake is pending.  Connected: `socket.Connected` holds.  Closed:
   * the socket exists but is not connected and no handshake is pending,
   * because `Disconnect` closed it or because its handshake failed.
   */
  datatype Phase = Idle | Connecting | Connected | Closed

  /** How an asynchronous operation ended: with its result, or by throwing. */
  datatype Completion<T> = Done(value: T) | Faulted

  /** A call the session makes into its socket or its Agent. */
  datatype Call =
    | BeginConnect(host: string, port: ushort)
    | BeginSend(bytes: seq<byte>)
    | BeginReceive(count: nat)
    | AgentRecv(stream: seq<byte>)
    | AgentFail
    | Close

  /** The payloads of the transmits in a call log, in issue order. */
  function Transmits(calls: seq<Call>): seq<seq<byte>> {
    if calls == [] then []
    else (if calls[0].BeginSend? then [calls[0].bytes] else []) + Transmits(calls[1..])
  }

  lemma {:induction false} TransmitsSnoc(calls: seq<Call>, c: Call)
    ensures c.BeginSend? ==> Transmits(calls + [c]) == Transmits(calls) + [c.bytes]
    ensures !c.BeginSend? ==> Transmits(calls + [c]) == Transmits(calls)
  {
    if calls == [] {
      assert calls + [c] == [c];
      assert [c][1..] == [];
    } else {
      assert (calls + [c])[1..] == calls[1..] + [c];
      TransmitsSnoc(calls[1..], c);
    }
  }

  /** The phase after `Disconnect()`: only a connected socket gets closed. */
  function Disconnected(p: Phase): (q: Phase)
    ensures q != Connected
    ensures p != Connected ==> q == p
  {
    if p == Connected then Closed else p
  }

  /** The calls `Disconnect()` makes in phase `p`. */
  function ClosingCalls(p: Phase): seq<Call> {
    if p == Connected then [Close] else []
  }

  /**
   * Bookkeeping the session does not keep itself, needed to state what it
   * promises: whether a receive is armed, every `Send` payload in call
   * order, the bytes of every completed transmit, every non-empty chunk
   * received in arrival order, how many transmits have completed, and
   * whether a transmit ever failed to issue or to complete.
   */
  datatype Ledger = Ledger(
    recvPending: bool,
    payloads: seq<seq<byte>>,
    sent: seq<byte>,
    chunks: seq<seq<byte>>,
    completions: nat,
    fault: bool)

  /**
   * A session: the fields it keeps (the five outbound ones gathered in
   * `out`), the calls it has made, and its ledger.
   */
  datatype Model = Model(
    host: string,
    port: ushort,
    phase: Phase,
    recv: MemoryStream,
    out: Outbound,
    calls: seq<Call>,
    ledger: Ledger)

  /** A new session: no socket, empty streams, nothing called. */
  const Fresh: Model := Model("", 0, Idle, MemoryStream([], 0), Initial, [], Ledger(false, [], [], [], 0, false))

  /** The representation invariant every step keeps and needs. */
  predicate WellFormed(m: Model) {
    m.out.Shaped() && m.recv.Valid()
  }

  /**
   * The session invariant, short of settling: operations are outstanding
   * only on a socket that exists and has connected; the receive stream holds
   * exactly the chunks received, in order; the outbound invariant holds over
   * the transmits in the call log.
   */
  ghost predicate Consistent(m: Model) {
    && m.recv.Valid()
    && (m.out.sending ==> m.phase == Connected || m.phase == Closed)
    && (m.ledger.recvPending ==> m.phase == Connected || m.phase == Closed)
    && m.recv.Contents() == Flatten(m.ledger.chunks)
    && Invariant(m.out, Transmits(m.calls), m.ledger.completions, m.ledger.sent, m.ledger.payloads, m.ledger.fault)
  }

  /** The session invariant between events. */
  ghost predicate Inv(m: Model) {
    Consistent(m) && (!m.ledger.fault ==> Drained(m.out))
  }

  /** `IsConnected()`: a socket exists and is connected. */
  predicate IsConnected(m: Model) {
    m.phase != Idle && m.phase == Connected
  }

  /** `Connect(host, port)`: create the socket and start the handshake. */
  function ConnectStep(m: Model, host: string, port: ushort): (r: Model)
    requires m.phase == Idle
    ensures WellFormed(m) ==> WellFormed(r)
  {
    m.(host := host, port := port, phase := Connecting, calls := m.calls + [BeginConnect(host, port)])
  }

  /** `Disconnect()`: close the socket if it is connected. */
  function DisconnectStep(m: Model): (r: Model)
    ensures WellFormed(m) ==> WellFormed(r)
  {
    m.(phase := Disconnected(m.phase), calls := m.calls + ClosingCalls(m.phase))
  }

  /**
   * `RequestSend()`: flush the coalescer.  A transmit the socket accepts is
   * logged with the bytes it carries; one that throws is reported to the
   * Agent, releases the flag and disconnects.
   */
  function RequestSendStep(m: Model, accepts: bool): (r: Model)
    requires m.out.Shaped()
    ensures WellFormed(m) ==> WellFormed(r)
  {
    if !Flushes(m.out) then m
    else if m.phase == Connected && accepts then
      m.(out := Flush(m.out, true), calls := m.calls + [BeginSend(m.out.Queued())])
    else
      DisconnectStep(m.(out := Flush(m.out, false), calls := m.calls + [AgentFail], ledger := m.ledger.(fault := true)))
  }

  /** `Send(payload, length)`: queue the first `length` bytes, then flush. */
  function SendStep(m: Model, payload: seq<byte>, length: nat, accepts: bool): (r: Model)
    requires m.out.Shaped()
    requires length <= |payload|
    ensures WellFormed(m) ==> WellFormed(r)
  {
    var queued := m.(out := Append(m.out, payload, length), ledger := m.ledger.(payloads := m.ledger.payloads + [payload[..length]]));
    RequestSendStep(queued, accepts)
  }

  /**
   * `OnSendCompleted`: release the flag.  On success rewind the in-flight
   * source and flush again; on failure disconnect, leaving the source as it
   * is.
   */
  function SendCompletedStep(m: Model, ok: bool, accepts: bool): (r: Model)
    requires m.out.Shaped() && m.out.sending
    ensures WellFormed(m) ==> WellFormed(r)
  {
    if ok then
      var done := m.(out := Complete(m.out),
                     ledger := m.ledger.(sent := m.ledger.sent + m.out.InFlight(), completions := m.ledger.completions + 1));
      RequestSendStep(done, accepts)
    else
      DisconnectStep(m.(out := m.out.(sending := false),
                         ledger := m.ledger.(completions := m.ledger.completions + 1, fault := true)))
  }

  /**
   * `RequestRecv()`: arm one receive of up to `RecvBufferSize` bytes, or,
   * if that throws, report to the Agent and disconnect.
   */
  function RequestRecvStep(m: Model, accepts: bool): (r: Model)
    ensures WellFormed(m) ==> WellFormed(r)
  {
    if m.phase == Connected && accepts then
      m.(calls := m.calls + [BeginReceive(RecvBufferSize)], ledger := m.ledger.(recvPending := true))
    else
      DisconnectStep(m.(calls := m.calls + [AgentFail]))
  }

  /**
   * `OnConnectCompleted`: on success arm the first receive; on failure
   * report to the Agent and disconnect, which finds nothing to close.
   */
  function ConnectCompletedStep(m: Model, ok: bool, accepts: bool): (r: Model)
    ensures WellFormed(m) ==> WellFormed(r)
  {
    if ok then RequestRecvStep(m.(phase := Connected), accepts)
    else DisconnectStep(m.(phase := Closed, calls := m.calls + [AgentFail]))
  }

  /**
   * `OnRecvCompleted`: a non-empty chunk is appended to the receive stream
   * and the Agent is handed the stream; an empty one changes nothing; either
   * way the next receive is armed.  A failed receive disconnects.
   */
  function RecvCompletedStep(m: Model, result: Completion<seq<byte>>, accepts: bool): (r: Model)
    requires m.recv.Valid()
    ensures WellFormed(m) ==> WellFormed(r)
  {
    var idle := m.(ledger := m.ledger.(recvPending := false));
    if result.Faulted? then DisconnectStep(idle)
    else if |result.value| == 0 then RequestRecvStep(idle, accepts)
    else
      var recv := Write(m.recv, result.value, |result.value|);
      RequestRecvStep(idle.(recv := recv, calls := m.calls + [AgentRecv(recv.Contents())],
                            ledger := idle.ledger.(chunks := m.ledger.chunks + [result.value])), accepts)
  }
}

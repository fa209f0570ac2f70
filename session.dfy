/**
 * The session object: the fields of `loady.Session`, updated in place by
 * its methods and by the completion callbacks.  Each method is proved to
 * take the session from one value of the model to the value the matching
 * step function computes, so everything proved about the steps holds of
 * the object.
 */
module Sessions {
  import opened Streams
  import opened Coalescing
  import opened SessionModel
  import opened SessionInvariant

  class Session {
    var host: string
    var port: ushort
    var phase: Phase

    var recvStream: MemoryStream

    var sending: bool
    var sendStream1: MemoryStream
    var sendStream2: MemoryStream
    /** The buffer `Send` writes into. */
    var accumulStream: StreamId
    /** The buffer last handed to `BeginSend`; none before the first flush. */
    var sendStream: Option<StreamId>

    /** Every call made into the socket and the Agent, in order. */
    var calls: seq<Call>

    /** What the session has been asked and has delivered, for the proofs. */
    ghost var ledger: Ledger

    /** The outbound fields, as one value. */
    function Out(): Outbound
      reads this
    {
      Outbound(sending, sendStream1, sendStream2, accumulStream, sendStream)
    }

    /** The session as a value of the model. */
    ghost function State(): Model
      reads this
    {
      Model(host, port, phase, recvStream, Out(), calls, ledger)
    }

    /**
     * The session invariant of `SessionModel`: it holds of a new session
     * and every public operation and completion keeps it.
     */
    ghost predicate Valid()
      reads this
    {
      WellFormed(State()) && Inv(State())
    }

    constructor ()
      ensures State() == Fresh
      ensures Valid()
    {
      host, port, phase := "", 0, Idle;
      recvStream := MemoryStream([], 0);
      sending := false;
      sendStream1, sendStream2 := MemoryStream([], 0), MemoryStream([], 0);
      accumulStream, sendStream := One, None;
      calls := [];
      ledger := Ledger(false, [], [], [], 0, false);
      FreshInv();
    }

    /**
     * Only legal while no socket exists.  Always answers true: the attempt
     * was started, not completed.
     */
    method Connect(host: string, port: ushort) returns (ok: bool)
      requires Valid() && phase == Idle
      modifies this`host, this`port, this`phase, this`calls
      ensures ok
      ensures State() == ConnectStep(old(State()), host, port)
      ensures Valid()
    {
      ghost var m := State();
      this.host := host;
      this.port := port;
      phase := Connecting;
      calls := calls + [BeginConnect(host, port)];
      ok := true;
      ConnectPreserves(m, host, port);
    }

    predicate IsConnected(): (r: bool)
      reads this
      ensures r <==> phase == Connected
    {
      phase != Idle && phase == Connected
    }

    method Disconnect()
      modifies this`phase, this`calls
      ensures State() == DisconnectStep(old(State()))
      ensures old(Valid()) ==> Valid()
    {
      ghost var m := State();
      if IsConnected() {
        calls := calls + [Close];
        phase := Closed;
      }
      if Inv(m) {
        DisconnectPreserves(m);
      }
    }

    /** `Send(payload)`: the whole payload. */
    method Send(payload: seq<byte>, accepts: bool) returns (ok: bool)
      requires Valid()
      modifies this`sendStream1, this`sendStream2, this`sending, this`accumulStream,
        this`sendStream, this`phase, this`calls, this`ledger
      ensures ok
      ensures State() == SendStep(old(State()), payload, |payload|, accepts)
      ensures Valid()
    {
      ok := SendPrefix(payload, |payload|, accepts);
    }

    /**
     * `Send(payload, length)`.  Always answers true; there is no
     * backpressure.
     */
    method SendPrefix(payload: seq<byte>, length: nat, accepts: bool) returns (ok: bool)
      requires Valid()
      requires length <= |payload|
      modifies this`sendStream1, this`sendStream2, this`sending, this`accumulStream,
        this`sendStream, this`phase, this`calls, this`ledger
      ensures ok
      ensures State() == SendStep(old(State()), payload, length, accepts)
      ensures Valid()
    {
      ghost var m := State();
      if accumulStream == One {
        sendStream1 := Write(sendStream1, payload, length);
      } else {
        sendStream2 := Write(sendStream2, payload, length);
      }
      ledger := ledger.(payloads := ledger.payloads + [payload[..length]]);
      ghost var queued := m.(out := Append(m.out, payload, length),
                             ledger := m.ledger.(payloads := m.ledger.payloads + [payload[..length]]));
      assert State() == queued;
      RequestSend(accepts);
      assert State() == RequestSendStep(queued, accepts);
      SendPreserves(m, payload, length, accepts);
      ok := true;
    }

    /**
     * Claims the flag first; releases it at once if nothing is queued;
     * otherwise exchanges the buffer roles and transmits the whole new
     * in-flight source.  If issuing throws, the Agent is told, the flag is
     * released and the socket is disconnected.
     */
    method RequestSend(accepts: bool)
      requires Out().Shaped()
      modifies this`sending, this`accumulStream, this`sendStream, this`phase, this`calls, this`ledger
      ensures State() == RequestSendStep(old(State()), accepts)
    {
      if sending {
        return;
      }
      ghost var m := State();
      sending := true;
      if Out().Buffer(accumulStream).position == 0 {
        sending := false;
        return;
      }
      SwitchSendStream();
      var buf := Out().Buffer(sendStream.value);
      assert buf.data[..buf.position] == m.out.Queued();
      if phase == Connected && accepts {
        calls := calls + [BeginSend(buf.data[..buf.position])];
        assert Out() == Flush(m.out, true);
      } else {
        // BeginSend threw; on a missing or unconnected socket it always does
        calls := calls + [AgentFail];
        sending := false;
        ledger := ledger.(fault := true);
        assert State() == m.(out := Flush(m.out, false), calls := m.calls + [AgentFail], ledger := m.ledger.(fault := true));
        Disconnect();
      }
    }

    /** Exchanges the two buffer roles. */
    method SwitchSendStream()
      modifies this`accumulStream, this`sendStream
      ensures sendStream == Some(old(accumulStream))
      ensures accumulStream == old(accumulStream).Other()
    {
      if accumulStream == One {
        accumulStream := Two;
        sendStream := Some(One);
      } else {
        accumulStream := One;
        sendStream := Some(Two);
      }
    }

    /**
     * The outstanding transmit completed.  Success is taken to mean that
     * the whole requested length was sent: the byte count the completion
     * reports is never compared with it.
     *
     * The flag is released before the rewind, so in the source a `Send` on
     * another thread could claim it in between and swap onto a buffer that
     * still holds the old bytes.  Events here run one at a time, so this
     * model does not capture that interleaving.
     */
    method OnSendCompleted(ok: bool, accepts: bool)
      requires Valid() && sending
      modifies this`sending, this`sendStream1, this`sendStream2, this`accumulStream, this`sendStream,
        this`phase, this`calls, this`ledger
      ensures State() == SendCompletedStep(old(State()), ok, accepts)
      ensures Valid()
    {
      ghost var m := State();
      sending := false;
      if !ok {
        // EndSend threw: only logged
        ledger := ledger.(completions := ledger.completions + 1, fault := true);
        Disconnect();
      } else {
        ledger := ledger.(sent := ledger.sent + m.out.InFlight(), completions := ledger.completions + 1);
        if sendStream.value == One {
          sendStream1 := Rewind(sendStream1);
        } else {
          sendStream2 := Rewind(sendStream2);
        }
        ghost var done := m.(out := Complete(m.out),
                             ledger := m.ledger.(sent := m.ledger.sent + m.out.InFlight(), completions := m.ledger.completions + 1));
        assert State() == done;
        RequestSend(accepts);
        assert State() == RequestSendStep(done, accepts);
      }
      SendCompletedPreserves(m, ok, accepts);
    }

    /**
     * Arms one receive of up to `RecvBufferSize` bytes.  If that throws,
     * the Agent is told and the socket is disconnected.
     */
    method RequestRecv(accepts: bool)
      modifies this`phase, this`calls, this`ledger
      ensures State() == RequestRecvStep(old(State()), accepts)
    {
      if phase == Connected && accepts {
        calls := calls + [BeginReceive(RecvBufferSize)];
        ledger := ledger.(recvPending := true);
      } else {
        calls := calls + [AgentFail];
        Disconnect();
      }
    }

    /** The handshake ended; `ok` says whether `EndConnect` succeeded. */
    method OnConnectCompleted(ok: bool, accepts: bool)
      requires Valid() && phase == Connecting
      modifies this`phase, this`calls, this`ledger
      ensures State() == ConnectCompletedStep(old(State()), ok, accepts)
      ensures Valid()
    {
      ghost var m := State();
      if ok {
        phase := Connected;
        RequestRecv(accepts);
      } else {
        // the socket stays allocated but unconnected
        phase := Closed;
        calls := calls + [AgentFail];
        Disconnect();
      }
      ConnectCompletedPreserves(m, ok, accepts);
    }

    /**
     * A receive ended, with the bytes read or by throwing.  A receive never
     * delivers more than it asked for.
     */
    method OnRecvCompleted(result: Completion<seq<byte>>, accepts: bool)
      requires Valid() && ledger.recvPending
      requires result.Done? ==> |result.value| <= RecvBufferSize
      modifies this`recvStream, this`phase, this`calls, this`ledger
      ensures State() == RecvCompletedStep(old(State()), result, accepts)
      ensures Valid()
    {
      ghost var m := State();
      ledger := ledger.(recvPending := false);
      if result.Faulted? {
        // EndReceive threw: only logged
        Disconnect();
      } else {
        var chunk := result.value;
        if |chunk| > 0 {
          recvStream := Write(recvStream, chunk, |chunk|);
          ledger := ledger.(chunks := ledger.chunks + [chunk]);
          calls := calls + [AgentRecv(recvStream.Contents())];
        }
        ghost var read := State();
        RequestRecv(accepts);
        assert State() == RequestRecvStep(read, accepts);
      }
      assert State() == RecvCompletedStep(m, result, accepts);
      RecvCompletedPreserves(m, result, accepts);
    }
  }
}

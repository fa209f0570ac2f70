/**
 * Every step of a session keeps the session invariant: the roles of the two
 * send buffers never alias, at most one transmit is outstanding and it
 * carries the in-flight bytes, the receive stream holds exactly the chunks
 * received, and, as long as no transmit has failed, every byte written is
 * conserved in order.
 */
module SessionInvariant {
  import opened Streams
  import opened Coalescing
  import opened SessionModel

  lemma FreshInv()
    ensures WellFormed(Fresh) && Inv(Fresh)
  {
    InitialSettled();
  }

  /** `Disconnect()` never adds a transmit. */
  lemma TransmitsClosing(calls: seq<Call>, p: Phase)
    ensures Transmits(calls + ClosingCalls(p)) == Transmits(calls)
  {
    if p == Connected {
      TransmitsSnoc(calls, Close);
    } else {
      assert calls + ClosingCalls(p) == calls;
    }
  }

  lemma DisconnectPreserves(m: Model)
    requires Consistent(m)
    ensures Consistent(DisconnectStep(m))
    ensures Inv(m) ==> Inv(DisconnectStep(m))
  {
    TransmitsClosing(m.calls, m.phase);
  }

  lemma ConnectPreserves(m: Model, host: string, port: ushort)
    requires Inv(m) && m.phase == Idle
    ensures Inv(ConnectStep(m, host, port))
  {
    TransmitsSnoc(m.calls, BeginConnect(host, port));
  }

  /**
   * A flush settles the session, whatever the socket does: an accepted
   * transmit is logged with the bytes it carries, a refused one is a fault.
   */
  lemma RequestSendPreserves(m: Model, accepts: bool)
    requires Consistent(m)
    ensures Inv(RequestSendStep(m, accepts))
  {
    var live := m.phase == Connected && accepts;
    FlushSettles(m.out, live, Transmits(m.calls), m.ledger.completions, m.ledger.sent, m.ledger.payloads, m.ledger.fault);
    if Flushes(m.out) {
      if live {
        TransmitsSnoc(m.calls, BeginSend(m.out.Queued()));
      } else {
        TransmitsSnoc(m.calls, AgentFail);
        DisconnectPreserves(m.(out := Flush(m.out, false), calls := m.calls + [AgentFail], ledger := m.ledger.(fault := true)));
      }
    }
  }

  lemma SendPreserves(m: Model, payload: seq<byte>, length: nat, accepts: bool)
    requires Inv(m) && length <= |payload|
    ensures Inv(SendStep(m, payload, length, accepts))
  {
    AppendKeeps(m.out, payload, length, Transmits(m.calls), m.ledger.completions, m.ledger.sent, m.ledger.payloads, m.ledger.fault);
    RequestSendPreserves(m.(out := Append(m.out, payload, length), ledger := m.ledger.(payloads := m.ledger.payloads + [payload[..length]])), accepts);
  }

  lemma SendCompletedPreserves(m: Model, ok: bool, accepts: bool)
    requires Inv(m) && m.out.sending
    ensures Inv(SendCompletedStep(m, ok, accepts))
  {
    if ok {
      CompleteKeeps(m.out, Transmits(m.calls), m.ledger.completions, m.ledger.sent, m.ledger.payloads, m.ledger.fault);
      RequestSendPreserves(m.(out := Complete(m.out), ledger := m.ledger.(sent := m.ledger.sent + m.out.InFlight(), completions := m.ledger.completions + 1)), accepts);
    } else {
      FailedKeeps(m.out, Transmits(m.calls), m.ledger.completions, m.ledger.sent, m.ledger.payloads, m.ledger.fault);
      DisconnectPreserves(m.(out := m.out.(sending := false), ledger := m.ledger.(completions := m.ledger.completions + 1, fault := true)));
    }
  }

  lemma RequestRecvPreserves(m: Model, accepts: bool)
    requires Inv(m)
    ensures Inv(RequestRecvStep(m, accepts))
  {
    if m.phase == Connected && accepts {
      TransmitsSnoc(m.calls, BeginReceive(RecvBufferSize));
    } else {
      TransmitsSnoc(m.calls, AgentFail);
      DisconnectPreserves(m.(calls := m.calls + [AgentFail]));
    }
  }

  lemma ConnectCompletedPreserves(m: Model, ok: bool, accepts: bool)
    requires Inv(m) && m.phase == Connecting
    ensures Inv(ConnectCompletedStep(m, ok, accepts))
  {
    if ok {
      RequestRecvPreserves(m.(phase := Connected), accepts);
    } else {
      TransmitsSnoc(m.calls, AgentFail);
      DisconnectPreserves(m.(phase := Closed, calls := m.calls + [AgentFail]));
    }
  }

  lemma RecvCompletedPreserves(m: Model, result: Completion<seq<byte>>, accepts: bool)
    requires Inv(m)
    ensures Inv(RecvCompletedStep(m, result, accepts))
  {
    var idle := m.(ledger := m.ledger.(recvPending := false));
    if result.Faulted? {
      DisconnectPreserves(idle);
    } else if |result.value| == 0 {
      RequestRecvPreserves(idle, accepts);
    } else {
      var chunk := result.value;
      var recv := Write(m.recv, chunk, |chunk|);
      WriteAppends(m.recv, chunk, |chunk|);
      FlattenSnoc(m.ledger.chunks, chunk);
      TransmitsSnoc(m.calls, AgentRecv(recv.Contents()));
      RequestRecvPreserves(idle.(recv := recv, calls := m.calls + [AgentRecv(recv.Contents())],
                                 ledger := idle.ledger.(chunks := m.ledger.chunks + [chunk])), accepts);
    }
  }
}

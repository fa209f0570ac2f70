/**
 * The outbound coalescer of a session, as values: an in-flight flag, two
 * MemoryStreams, the one `Send` writes into (the accumulation target) and
 * the one last handed to the socket (the in-flight source).  Flushing
 * exchanges the two roles, so writers never touch the buffer that is being
 * transmitted, and at most one transmit is outstanding.
 *
 * The lemmas here state conservation: the bytes already transmitted, then
 * the bytes in flight, then the bytes queued, are always the concatenation
 * of every payload written, in order, each exactly once.
 */
module Coalescing {
  import opened Streams

  datatype Option<T> = None | Some(value: T)

  /** Which of the two buffers a role reference names. */
  datatype StreamId = One | Two
  {
    function Other(): (r: StreamId)
      ensures r != this
    {
      if this == One then Two else One
    }
  }

  /** All chunks, one after the other. */
  function Flatten(chunks: seq<seq<byte>>): seq<byte> {
    if chunks == [] then [] else chunks[0] + Flatten(chunks[1..])
  }

  lemma {:induction false} FlattenSnoc(chunks: seq<seq<byte>>, c: seq<byte>)
    ensures Flatten(chunks + [c]) == Flatten(chunks) + c
  {
    if chunks == [] {
      assert chunks + [c] == [c];
      assert [c][1..] == [];
    } else {
      assert (chunks + [c])[1..] == chunks[1..] + [c];
      FlattenSnoc(chunks[1..], c);
    }
  }

  /**
   * `sending`, the two buffers, `accum` (the buffer `Send` writes into) and
   * `inflight` (the buffer last handed to the socket, none before the
   * first flush).
   */
  datatype Outbound = Outbound(
    sending: bool,
    stream1: MemoryStream,
    stream2: MemoryStream,
    accum: StreamId,
    inflight: Option<StreamId>)
  {
    function Buffer(id: StreamId): MemoryStream {
      if id == One then stream1 else stream2
    }

    predicate BuffersValid() {
      stream1.Valid() && stream2.Valid()
    }

    /** The two roles never name the same buffer, and a flag set means a buffer is in flight. */
    predicate Shaped() {
      && BuffersValid()
      && (inflight.Some? ==> inflight.value == accum.Other())
      && (sending ==> inflight.Some?)
    }

    /** The bytes waiting in the accumulation target. */
    function Queued(): seq<byte>
      requires BuffersValid()
    {
      Buffer(accum).Contents()
    }

    /** The bytes in front of the in-flight source's cursor. */
    function InFlight(): seq<byte>
      requires BuffersValid()
    {
      if inflight.Some? then Buffer(inflight.value).Contents() else []
    }

    /** The bytes in front of the cursor of the buffer that is not the accumulation target. */
    function Spare(): seq<byte>
      requires BuffersValid()
    {
      Buffer(accum.Other()).Contents()
    }
  }

  /** A new session: both buffers empty, the first one the target, nothing in flight. */
  const Initial: Outbound := Outbound(false, MemoryStream([], 0), MemoryStream([], 0), One, None)

  function WithBuffer(o: Outbound, id: StreamId, s: MemoryStream): Outbound {
    if id == One then o.(stream1 := s) else o.(stream2 := s)
  }

  /** `accumulStream.Write(payload, 0, length)`. */
  function Append(o: Outbound, payload: seq<byte>, length: nat): (r: Outbound)
    requires o.Shaped()
    requires length <= |payload|
    ensures r.Shaped()
  {
    WithBuffer(o, o.accum, Write(o.Buffer(o.accum), payload, length))
  }

  /**
   * The target grows by exactly the first `length` bytes of the payload;
   * the other buffer, the roles and the flag are untouched.
   */
  lemma AppendSpec(o: Outbound, payload: seq<byte>, length: nat)
    requires o.Shaped()
    requires length <= |payload|
    ensures Append(o, payload, length).Queued() == o.Queued() + payload[..length]
    ensures Append(o, payload, length).Buffer(o.accum.Other()) == o.Buffer(o.accum.Other())
    ensures Append(o, payload, length).InFlight() == o.InFlight()
    ensures Append(o, payload, length).Spare() == o.Spare()
    ensures var r := Append(o, payload, length);
      r.sending == o.sending && r.accum == o.accum && r.inflight == o.inflight
  {
    WriteAppends(o.Buffer(o.accum), payload, length);
  }

  /** Whether a flush attempt goes as far as a transmit: nothing in flight and something queued. */
  predicate Flushes(o: Outbound)
    requires o.BuffersValid()
  {
    !o.sending && o.Queued() != []
  }

  /**
   * `RequestSend`: with nothing in flight and something queued, claim the
   * flag, exchange the roles and transmit the whole new in-flight source;
   * the claim is kept if the socket accepted the transmit and released if
   * issuing it threw.  Otherwise nothing changes.
   */
  function Flush(o: Outbound, accepted: bool): (r: Outbound)
    requires o.Shaped()
    ensures r.Shaped()
  {
    if !Flushes(o) then o
    else o.(sending := accepted, accum := o.accum.Other(), inflight := Some(o.accum))
  }

  /**
   * A flush that goes ahead exchanges the roles, so the queued bytes are now
   * in flight and the writer gets the other buffer; the flag says whether
   * the transmit was accepted.  The buffers themselves are never touched.
   */
  lemma FlushSpec(o: Outbound, accepted: bool)
    requires o.Shaped()
    ensures !Flushes(o) ==> Flush(o, accepted) == o
    ensures Flushes(o) ==>
      var r := Flush(o, accepted);
      && r.accum != o.accum && r.inflight == Some(o.accum)
      && r.InFlight() == o.Queued() && r.Queued() == o.Spare()
      && r.sending == accepted
    ensures Flush(o, accepted).stream1 == o.stream1 && Flush(o, accepted).stream2 == o.stream2
  {
  }

  /**
   * `OnSendCompleted` on success: release the flag and rewind the in-flight
   * source.
   */
  function Complete(o: Outbound): (r: Outbound)
    requires o.Shaped() && o.sending
    ensures r.Shaped() && !r.sending
  {
    WithBuffer(o.(sending := false), o.inflight.value, Rewind(o.Buffer(o.inflight.value)))
  }

  /**
   * After a completion nothing is in flight, the queued bytes are as they
   * were, and the rewound source keeps its stale bytes behind the cursor.
   */
  lemma CompleteSpec(o: Outbound)
    requires o.Shaped() && o.sending
    ensures Complete(o).InFlight() == [] && Complete(o).Queued() == o.Queued()
    ensures Complete(o).Spare() == []
    ensures Complete(o).Buffer(o.inflight.value).data == o.Buffer(o.inflight.value).data
    ensures Complete(o).accum == o.accum && Complete(o).inflight == o.inflight
  {
    RewindEmpties(o.Buffer(o.inflight.value));
  }

  /**
   * The transmits issued so far have all completed but for at most one,
   * the last, which is outstanding exactly while the flag is set and which
   * carries the in-flight source's bytes: nobody has written to it since.
   */
  ghost predicate Tracks(o: Outbound, transmits: seq<seq<byte>>, completions: nat)
    requires o.Shaped()
  {
    && |transmits| == completions + (if o.sending then 1 else 0)
    && (o.sending ==> transmits[|transmits| - 1] == o.InFlight())
  }

  /**
   * No loss, no reordering, no duplication: the bytes of the completed
   * transmits, then the in-flight bytes, then the queued bytes, are the
   * payloads in order; everything handed to the socket is the first two
   * parts; the buffer in neither role is empty.
   */
  ghost predicate Conserved(o: Outbound, sent: seq<byte>, payloads: seq<seq<byte>>, transmits: seq<seq<byte>>)
    requires o.Shaped()
  {
    && sent + o.InFlight() + o.Queued() == Flatten(payloads)
    && Flatten(transmits) == sent + o.InFlight()
    && (!o.sending ==> o.Spare() == [])
  }

  /** Nothing waits in the target unless a transmit is outstanding. */
  predicate Drained(o: Outbound)
    requires o.BuffersValid()
  {
    !o.sending ==> o.Queued() == []
  }

  lemma InitialConserved()
    ensures Initial.Shaped() && Tracks(Initial, [], 0) && Drained(Initial)
    ensures Conserved(Initial, [], [], [])
  {
  }

  /** Writing a payload into the target keeps conservation with the payload appended. */
  lemma AppendConserves(o: Outbound, payload: seq<byte>, length: nat,
                        sent: seq<byte>, payloads: seq<seq<byte>>, transmits: seq<seq<byte>>)
    requires o.Shaped() && length <= |payload|
    requires Conserved(o, sent, payloads, transmits)
    ensures Conserved(Append(o, payload, length), sent, payloads + [payload[..length]], transmits)
  {
    var r := Append(o, payload, length);
    AppendSpec(o, payload, length);
    FlattenSnoc(payloads, payload[..length]);
    calc {
      sent + r.InFlight() + r.Queued();
      sent + o.InFlight() + (o.Queued() + payload[..length]);
      (sent + o.InFlight() + o.Queued()) + payload[..length];
    }
  }

  /**
   * A flush keeps the bookkeeping of transmits, whether or not the socket
   * accepted the one it issued.
   */
  lemma FlushTracks(o: Outbound, accepted: bool, transmits: seq<seq<byte>>, completions: nat)
    requires o.Shaped() && Tracks(o, transmits, completions)
    ensures Tracks(Flush(o, accepted), if Flushes(o) && accepted then transmits + [o.Queued()] else transmits, completions)
  {
    FlushSpec(o, accepted);
  }

  /**
   * An accepted flush (or none at all) keeps conservation, the transmit it
   * issues carrying exactly the queued bytes; every exchange hands the
   * writer an empty target; afterwards nothing waits without a transmit
   * outstanding.
   */
  lemma FlushConserves(o: Outbound, accepted: bool,
                       sent: seq<byte>, payloads: seq<seq<byte>>, transmits: seq<seq<byte>>)
    requires o.Shaped()
    requires Conserved(o, sent, payloads, transmits)
    requires o.sending ==> |transmits| > 0 && transmits[|transmits| - 1] == o.InFlight()
    ensures Flushes(o) ==> Flush(o, accepted).Queued() == []
    ensures Drained(Flush(o, accepted)) || o.sending
    ensures accepted || !Flushes(o) ==>
      Conserved(Flush(o, accepted), sent, payloads, if Flushes(o) && accepted then transmits + [o.Queued()] else transmits)
  {
    FlushSpec(o, accepted);
    if Flushes(o) {
      assert o.InFlight() == [];
      if accepted {
        FlattenSnoc(transmits, o.Queued());
      }
    }
  }

  /**
   * A completed transmit moves the in-flight bytes to the sent bytes and
   * leaves the rewound source empty, keeping conservation.
   */
  lemma CompleteConserves(o: Outbound, sent: seq<byte>, payloads: seq<seq<byte>>,
                          transmits: seq<seq<byte>>, completions: nat)
    requires o.Shaped() && o.sending
    requires Tracks(o, transmits, completions)
    requires Conserved(o, sent, payloads, transmits)
    ensures Tracks(Complete(o), transmits, completions + 1)
    ensures Conserved(Complete(o), sent + o.InFlight(), payloads, transmits)
  {
    CompleteSpec(o);
  }

  /**
   * The outbound invariant: the roles are well formed, the transmits are
   * accounted for, and, unless a transmit has failed (`fault`), every byte
   * written is conserved in order.
   */
  ghost predicate Invariant(o: Outbound, transmits: seq<seq<byte>>, completions: nat,
                            sent: seq<byte>, payloads: seq<seq<byte>>, fault: bool)
  {
    && o.Shaped()
    && Tracks(o, transmits, completions)
    && (!fault ==> Conserved(o, sent, payloads, transmits))
  }

  /** The invariant between events: in addition nothing waits unsent without a transmit outstanding. */
  ghost predicate Settled(o: Outbound, transmits: seq<seq<byte>>, completions: nat,
                          sent: seq<byte>, payloads: seq<seq<byte>>, fault: bool)
  {
    Invariant(o, transmits, completions, sent, payloads, fault) && (!fault ==> Drained(o))
  }

  lemma InitialSettled()
    ensures Settled(Initial, [], 0, [], [], false)
  {
    InitialConserved();
  }

  /** Writing a payload keeps the invariant, with the payload recorded. */
  lemma AppendKeeps(o: Outbound, payload: seq<byte>, length: nat, transmits: seq<seq<byte>>,
                    completions: nat, sent: seq<byte>, payloads: seq<seq<byte>>, fault: bool)
    requires length <= |payload|
    requires Invariant(o, transmits, completions, sent, payloads, fault)
    ensures Invariant(Append(o, payload, length), transmits, completions, sent, payloads + [payload[..length]], fault)
  {
    if !fault {
      AppendConserves(o, payload, length, sent, payloads, transmits);
    }
  }

  /**
   * A flush attempt settles the coalescer: the transmit it issues, if the
   * socket accepts it, is recorded with exactly the queued bytes, and a
   * transmit that fails to issue is a fault.
   */
  lemma FlushSettles(o: Outbound, accepted: bool, transmits: seq<seq<byte>>,
                     completions: nat, sent: seq<byte>, payloads: seq<seq<byte>>, fault: bool)
    requires Invariant(o, transmits, completions, sent, payloads, fault)
    ensures Settled(Flush(o, accepted), if Flushes(o) && accepted then transmits + [o.Queued()] else transmits,
                    completions, sent, payloads, fault || (Flushes(o) && !accepted))
  {
    FlushTracks(o, accepted, transmits, completions);
    if !fault {
      FlushConserves(o, accepted, sent, payloads, transmits);
    }
  }

  /** A successful completion keeps the invariant, the in-flight bytes now sent. */
  lemma CompleteKeeps(o: Outbound, transmits: seq<seq<byte>>, completions: nat,
                      sent: seq<byte>, payloads: seq<seq<byte>>, fault: bool)
    requires o.sending
    requires Invariant(o, transmits, completions, sent, payloads, fault)
    ensures Invariant(Complete(o), transmits, completions + 1, sent + o.InFlight(), payloads, fault)
  {
    if !fault {
      CompleteConserves(o, sent, payloads, transmits, completions);
    }
  }

  /**
   * A failed completion only releases the flag; the invariant is kept, but
   * as a fault, so conservation is no longer claimed.
   */
  lemma FailedKeeps(o: Outbound, transmits: seq<seq<byte>>, completions: nat,
                    sent: seq<byte>, payloads: seq<seq<byte>>, fault: bool)
    requires o.sending
    requires Invariant(o, transmits, completions, sent, payloads, fault)
    ensures Settled(o.(sending := false), transmits, completions + 1, sent, payloads, true)
  {
  }

  /**
   * Once nothing is in flight or queued, the transmits issued carry every
   * payload in order, each exactly once.
   */
  lemma QuiescentDeliveredAll(o: Outbound, sent: seq<byte>, payloads: seq<seq<byte>>, transmits: seq<seq<byte>>)
    requires o.Shaped() && !o.sending && Drained(o)
    requires Conserved(o, sent, payloads, transmits)
    ensures Flatten(transmits) == Flatten(payloads)
  {
  }
}

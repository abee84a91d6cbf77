/** Heartbeats and their acks: what the coordinator's handler answers by itself. */
module Heartbeats {
  import opened Bytes
  import opened Wrappers
  import opened Protocol
  import opened Framing
  import opened Messages

  predicate Heartbeat(e: Envelope) {
    e.channel == 1 && e.kind == HEARTBEAT
  }

  predicate CloseRequest(e: Envelope) {
    e.channel == 1 && e.kind == SESSION_CLOSE
  }

  function AckFor(e: Envelope): Envelope {
    Envelope(1, HEARTBEAT_ACK, 0, e.requestId, [1])
  }

  /** One ack per heartbeat, in order. */
  function Acks(es: seq<Envelope>): seq<Envelope> {
    if es == [] then []
    else Acks(es[..|es| - 1]) + if Heartbeat(es[|es| - 1]) then [AckFor(es[|es| - 1])] else []
  }

  /** A received heartbeat always has an ack that encodes: decoding ruled request id 0 out. */
  lemma AckOfReceivedEncodes(bytes: seq<byte>, i: nat)
    requires i < |ParseAll(bytes)|
    ensures Encode(AckFor(ParseAll(bytes)[i])) == Ok(Frame(AckFor(ParseAll(bytes)[i])))
  {
    ParsedAreSendable(bytes);
  }

  /** One for one: the heartbeat at j is acked in the place its rank among the heartbeats gives it, under its own request id. */
  lemma {:induction false} AckOfHeartbeat(es: seq<Envelope>, j: nat)
    requires j < |es| && es[j].channel == 1 && es[j].kind == 0x0005
    ensures |Acks(es[..j])| < |Acks(es)|
    ensures IsAck(Acks(es)[|Acks(es[..j])|], es[j].requestId)
  {
    var n := |es| - 1;
    if j < n {
      AckOfHeartbeat(es[..n], j);
      assert es[..n][..j] == es[..j];
    }
  }

  /** The fields of the ack that answers a heartbeat with this request id. */
  predicate IsAck(e: Envelope, id: u64) {
    e.channel == 1 && e.kind == 0x0006 && e.flags == 0 && e.requestId == id && e.payload == [1]
  }

  /** The request ids of the heartbeats among these envelopes, in order. */
  function HeartbeatIds(es: seq<Envelope>): seq<u64> {
    if es == [] then []
    else
      var last := es[|es| - 1];
      HeartbeatIds(es[..|es| - 1]) + if last.channel == 1 && last.kind == 0x0005 then [last.requestId] else []
  }

  /** Acks for these request ids one for one, as far as they go. */
  predicate AnswersIds(acks: seq<Envelope>, ids: seq<u64>) {
    |acks| <= |ids| && forall i | 0 <= i < |acks| :: IsAck(acks[i], ids[i])
  }

  lemma {:induction false} AcksCarryTheIds(es: seq<Envelope>)
    ensures |Acks(es)| == |HeartbeatIds(es)| && AnswersIds(Acks(es), HeartbeatIds(es))
  {
    if es != [] {
      AcksCarryTheIds(es[..|es| - 1]);
    }
  }

  lemma {:induction false} AcksAreSendable(es: seq<Envelope>)
    requires AllSendable(es)
    ensures AllSendable(Acks(es))
  {
    if es != [] {
      AcksAreSendable(es[..|es| - 1]);
    }
  }

  /** Read back, the answering bytes are acks under the ids of the heartbeats; a cut last one reads as nothing. */
  lemma AckBytesRead(es: seq<Envelope>, part: seq<byte>)
    requires AllSendable(es)
    requires part == [] || exists e: Envelope :: Heartbeat(e) && Sendable(e) && part < AckFrame(e)
    ensures AnswersIds(ParseAll(AckBytes(es) + part), HeartbeatIds(es))
    ensures |ParseAll(AckBytes(es) + part)| == |HeartbeatIds(es)|
  {
    AckBytesAreAckFrames(es);
    AcksAreSendable(es);
    AcksCarryTheIds(es);
    if part != [] {
      var e: Envelope :| Heartbeat(e) && Sendable(e) && part < AckFrame(e);
      CutFrameIsIncomplete(AckFor(e), part);
    }
    ParseAllReadsFrames(Acks(es), part);
  }

  function HeartbeatCount(es: seq<Envelope>): nat {
    if es == [] then 0 else HeartbeatCount(es[..|es| - 1]) + if Heartbeat(es[|es| - 1]) then 1 else 0
  }

  lemma {:induction false} AsManyAcksAsHeartbeats(es: seq<Envelope>)
    ensures |Acks(es)| == HeartbeatCount(es)
  {
    if es != [] {
      AsManyAcksAsHeartbeats(es[..|es| - 1]);
    }
  }

  function AckFrame(e: Envelope): seq<byte> {
    if Heartbeat(e) then Frame(AckFor(e)) else []
  }

  function AckBytes(es: seq<Envelope>): seq<byte> {
    if es == [] then [] else AckBytes(es[..|es| - 1]) + AckFrame(es[|es| - 1])
  }

  lemma {:induction false} AckBytesAreAckFrames(es: seq<Envelope>)
    ensures AckBytes(es) == FramesOf(Acks(es))
  {
    if es != [] {
      var n := |es| - 1;
      AckBytesAreAckFrames(es[..n]);
      if Heartbeat(es[n]) {
        FramesOfAppend(Acks(es[..n]), AckFor(es[n]));
      } else {
        assert Acks(es) == Acks(es[..n]);
      }
    }
  }

  lemma AckBytesAppend(es: seq<Envelope>, e: Envelope)
    ensures AckBytes(es + [e]) == AckBytes(es) + AckFrame(e)
  {
    assert (es + [e])[..|es|] == es;
  }
}

/** One session over one stream, as its own thread sees it. */
module SessionPeer {
  import opened Bytes
  import opened Wrappers
  import opened Protocol
  import opened Framing
  import opened TlsStream
  import opened Messages
  import opened Heartbeats

  function HelloEnvelope(hello: SessionHello): (e: Envelope)
    requires ValidHello(hello)
    ensures Sendable(e)
  {
    Envelope(1, SESSION_HELLO, 1, 1, HelloBytes(hello))
  }

  /** The hello of the expected role that `bytes` start with, and what follows it. */
  function HelloInFront(bytes: seq<byte>, role: Role): Option<(SessionHello, seq<byte>)> {
    match ParseNext(bytes)
    case Whole(e, rest) =>
      if e.channel == 1 && e.kind == SESSION_HELLO && e.requestId != 0 then
        match DecodeSessionHello(e.payload)
        case Ok(hello) => if hello.role == role then Some((hello, rest)) else None
        case Err(_) => None
      else None
    case _ => None
  }

  /** The handler goes on after e; for a heartbeat that also takes a successful send. */
  predicate Accepted(e: Envelope, route: Envelope -> bool) {
    Heartbeat(e) || (!CloseRequest(e) && route(e))
  }

  /**
   * What answering `handled` put on the wire: the acks of its heartbeats in order, all of them but
   * possibly the end of the last one, when the last envelope was a heartbeat whose send failed.
   */
  ghost predicate AckTrail(before: seq<byte>, after: seq<byte>, handled: seq<Envelope>) {
    || after == before + AckBytes(handled)
    || exists part :: AckCut(before, after, handled, part)
  }

  ghost predicate AckCut(before: seq<byte>, after: seq<byte>, handled: seq<Envelope>, part: seq<byte>) {
    && handled != []
    && part < AckFrame(handled[|handled| - 1])
    && after == before + AckBytes(handled[..|handled| - 1]) + part
  }

  /**
   * Read back, what answering put on the wire is acks under the request ids of the handled
   * heartbeats, in order; only the last can be missing, when its send failed.
   */
  ghost predicate ReadsAsAcks(before: seq<byte>, after: seq<byte>, handled: seq<Envelope>) {
    && before <= after
    && AnswersIds(ParseAll(after[|before|..]), HeartbeatIds(handled))
    && |HeartbeatIds(handled)| <= |ParseAll(after[|before|..])| + 1
  }

  lemma WholeTrailReads(before: seq<byte>, handled: seq<Envelope>)
    requires AllSendable(handled)
    ensures ReadsAsAcks(before, before + AckBytes(handled), handled)
    ensures |ParseAll((before + AckBytes(handled))[|before|..])| == |HeartbeatIds(handled)|
  {
    AckBytesRead(handled, []);
    assert (before + AckBytes(handled))[|before|..] == AckBytes(handled) + [];
  }

  lemma CutTrailReads(before: seq<byte>, after: seq<byte>, handled: seq<Envelope>, part: seq<byte>)
    requires AllSendable(handled) && AckCut(before, after, handled, part)
    ensures ReadsAsAcks(before, after, handled)
  {
    hide AckBytes, ParseAll;
    var n := |handled| - 1;
    var read := AckBytes(handled[..n]) + part;
    AckBytesRead(handled[..n], part);
    assert after[|before|..] == read;
  }

  lemma TrailReadsAsAcks(before: seq<byte>, after: seq<byte>, handled: seq<Envelope>)
    requires AckTrail(before, after, handled) && AllSendable(handled)
    ensures ReadsAsAcks(before, after, handled)
    ensures after == before + AckBytes(handled) ==> |ParseAll(after[|before|..])| == |HeartbeatIds(handled)|
  {
    hide AckCut, ReadsAsAcks;
    if after == before + AckBytes(handled) {
      WholeTrailReads(before, handled);
    } else {
      var part :| AckCut(before, after, handled, part);
      CutTrailReads(before, after, handled, part);
    }
  }

  lemma HandledReadsAsAcks(bytes: seq<byte>, before: seq<byte>, after: seq<byte>, handled: seq<Envelope>, route: Envelope -> bool)
    requires InOrder(handled, ParseAll(bytes), route) && AckTrail(before, after, handled)
    ensures ReadsAsAcks(before, after, handled)
  {
    hide AckTrail, ReadsAsAcks;
    ParsedAreSendable(bytes);
    TrailReadsAsAcks(before, after, handled);
  }

  lemma WholeTrail(before: seq<byte>, handled: seq<Envelope>, e: Envelope)
    ensures before + AckBytes(handled) + AckFrame(e) == before + AckBytes(handled + [e])
  {
    AckBytesAppend(handled, e);
    ConcatAssociates(before, AckBytes(handled), AckFrame(e));
  }

  lemma ConcatAssociates(a: seq<byte>, b: seq<byte>, c: seq<byte>)
    ensures a + b + c == a + (b + c)
  {
  }

  lemma CutTrail(before: seq<byte>, after: seq<byte>, handled: seq<Envelope>, e: Envelope, part: seq<byte>)
    requires part < AckFrame(e) && after == before + AckBytes(handled) + part
    ensures AckTrail(before, after, handled + [e])
  {
    assert (handled + [e])[..|handled + [e]| - 1] == handled;
    assert AckCut(before, after, handled + [e], part);
  }

  lemma TrailOfOneMore(before: seq<byte>, after: seq<byte>, handled: seq<Envelope>, e: Envelope, part: seq<byte>)
    requires part <= AckFrame(e)
    requires after == before + AckBytes(handled) + part
    ensures AckTrail(before, after, handled + [e])
    ensures part == AckFrame(e) ==> after == before + AckBytes(handled + [e])
  {
    if part == AckFrame(e) {
      WholeTrail(before, handled, e);
    } else {
      CutTrail(before, after, handled, e, part);
    }
  }

  /** The envelopes handled so far, in order and without a gap, and none after a rejection. */
  ghost predicate InOrder(handled: seq<Envelope>, received: seq<Envelope>, route: Envelope -> bool) {
    && handled <= received
    && forall i | 0 <= i < |handled| - 1 :: Accepted(handled[i], route)
  }

  /** Between two turns of the loop: everything handled was accepted and acked, the rest is still to come. */
  ghost predicate Served(handled: seq<Envelope>, received: seq<Envelope>, rest: seq<byte>,
                         before: seq<byte>, after: seq<byte>, route: Envelope -> bool) {
    && received == handled + ParseAll(rest)
    && after == before + AckBytes(handled)
    && forall i | 0 <= i < |handled| :: Accepted(handled[i], route)
  }

  lemma ServedNothing(bytes: seq<byte>, before: seq<byte>, route: Envelope -> bool)
    ensures Served([], ParseAll(bytes), bytes, before, before, route)
    ensures AckTrail(before, before, [])
  {
  }

  lemma ServedSoFar(handled: seq<Envelope>, received: seq<Envelope>, rest: seq<byte>,
                    before: seq<byte>, after: seq<byte>, route: Envelope -> bool)
    requires Served(handled, received, rest, before, after, route)
    ensures InOrder(handled, received, route) && AckTrail(before, after, handled)
    ensures ParseAll(rest) == [] ==> handled == received
    ensures after == before + AckBytes(handled)
  {
  }

  lemma ServedOneMore(handled: seq<Envelope>, received: seq<Envelope>, bytes: seq<byte>, e: Envelope, rest: seq<byte>,
                      before: seq<byte>, written: seq<byte>, after: seq<byte>, route: Envelope -> bool)
    requires Served(handled, received, bytes, before, written, route)
    requires ParseNext(bytes) == Whole(e, rest)
    requires Wrote(written, after, AckFrame(e))
    ensures InOrder(handled + [e], received, route) && AckTrail(before, after, handled + [e])
    ensures after == written + AckFrame(e) && Accepted(e, route) ==> Served(handled + [e], received, rest, before, after, route)
  {
    ParseAllStep(bytes, e, rest);
    PrefixByOneMore(received, handled, e, ParseAll(rest));
    WroteAfter(before, written, after, handled, e);
  }

  lemma PrefixByOneMore(received: seq<Envelope>, handled: seq<Envelope>, e: Envelope, later: seq<Envelope>)
    requires received == handled + ([e] + later)
    ensures received == (handled + [e]) + later
    ensures handled + [e] <= received
  {
  }

  lemma WroteAfter(before: seq<byte>, written: seq<byte>, after: seq<byte>, handled: seq<Envelope>, e: Envelope)
    requires written == before + AckBytes(handled)
    requires Wrote(written, after, AckFrame(e))
    ensures AckTrail(before, after, handled + [e])
    ensures after == written + AckFrame(e) ==> after == before + AckBytes(handled + [e])
  {
    var part := after[|written|..];
    assert part <= AckFrame(e) && after == written + part;
    TrailOfOneMore(before, after, handled, e, part);
  }

  /**
   * Where in the receive loop another thread stops the peer, if it does, after `n` envelopes: at the
   * loop's guard, between the guard and the read, or between the read and the handler.
   */
  datatype StopPoint = Never | AtGuard(n: nat) | BeforeRead(n: nat) | InHandler(n: nat)

  /** That stop made the loop give up: the read met a closed stream, or an ack a stopped peer. */
  predicate StoppedAt(stop: StopPoint, handled: seq<Envelope>) {
    || (stop.BeforeRead? && |handled| >= stop.n)
    || (stop.InHandler? && |handled| > stop.n && Heartbeat(handled[|handled| - 1]))
  }

  /** Why a loop that was not stopped at its guard ends: nothing more came in, or it was made to. */
  predicate HasReason(closed: bool, broken: bool, stop: StopPoint, handled: seq<Envelope>, received: seq<Envelope>, route: Envelope -> bool) {
    || handled == received || closed || broken || StoppedAt(stop, handled)
    || (handled != [] && !Accepted(handled[|handled| - 1], route))
  }

  /** How the loop ends by itself: in order, acked up to the last, and for a reason. */
  ghost predicate GaveUp(closed: bool, broken: bool, stop: StopPoint, handled: seq<Envelope>, received: seq<Envelope>,
                         before: seq<byte>, after: seq<byte>, route: Envelope -> bool) {
    && InOrder(handled, received, route) && AckTrail(before, after, handled)
    && HasReason(closed, broken, stop, handled, received, route)
  }

  lemma NothingMore(closed: bool, broken: bool, stop: StopPoint, handled: seq<Envelope>, received: seq<Envelope>,
                    bytes: seq<byte>, before: seq<byte>, after: seq<byte>, route: Envelope -> bool)
    requires Served(handled, received, bytes, before, after, route)
    requires !ParseNext(bytes).Whole? || closed || broken || StoppedAt(stop, handled)
    ensures GaveUp(closed, broken, stop, handled, received, before, after, route)
  {
    ServedSoFar(handled, received, bytes, before, after, route);
  }

  lemma LastOne(closed: bool, broken: bool, stop: StopPoint, handled: seq<Envelope>, received: seq<Envelope>,
                bytes: seq<byte>, e: Envelope, rest: seq<byte>, before: seq<byte>, written: seq<byte>, after: seq<byte>,
                route: Envelope -> bool)
    requires Served(handled, received, bytes, before, written, route)
    requires ParseNext(bytes) == Whole(e, rest) && Wrote(written, after, AckFrame(e))
    requires Accepted(e, route) ==> closed || broken || StoppedAt(stop, handled + [e])
    ensures GaveUp(closed, broken, stop, handled + [e], received, before, after, route)
  {
    ServedOneMore(handled, received, bytes, e, rest, before, written, after, route);
  }

  class SessionPeer {
    const stream: Stream
    const localRole: Role
    const peerRole: Role
    var peerHello: Option<SessionHello>
    var established: bool

    constructor (stream: Stream, localRole: Role, peerRole: Role)
      ensures this.stream == stream && this.localRole == localRole && this.peerRole == peerRole
      ensures !established && peerHello == None
    {
      this.stream := stream;
      this.localRole := localRole;
      this.peerRole := peerRole;
      peerHello := None;
      established := false;
    }

    method Stop()
      requires stream.Valid()
      modifies this, stream
      ensures stream.Valid()
      ensures !established && peerHello == None && stream.closed
    {
      established := false;
      peerHello := None;
      stream.Close();
    }

    /** The hellos cross: exactly what the incoming bytes and the transport allow, with nothing stopped yet. */
    method ExchangeHellos(local: SessionHello) returns (hello: Option<SessionHello>)
      requires stream.Valid() && !stream.closed
      modifies stream, stream.pipe
      ensures stream.Valid()
      ensures hello.Some? <==>
        ValidHello(local) && !stream.pipe.broken && HelloInFront(old(stream.pipe.incoming), peerRole).Some?
      ensures hello.Some? ==> !stream.closed
      ensures hello.Some? ==> HelloInFront(old(stream.pipe.incoming), peerRole) == Some((hello.value, stream.pipe.incoming))
      ensures hello.Some? ==> stream.pipe.outgoing == old(stream.pipe.outgoing) + Frame(HelloEnvelope(local))
    {
      HelloDecodeInvertsEncode(local);
      var ok := false;
      match EncodeSessionHello(local) {
        case Err(_) =>
        case Ok(payload) =>
          ok := stream.Write(Envelope(1, SESSION_HELLO, 1, 1, payload));
      }
      if !ok {
        return None;
      }
      var received := stream.Read();
      if received.None? || received.value.channel != 1 || received.value.kind != SESSION_HELLO || received.value.requestId == 0 {
        return None;
      }
      var decoded := DecodeHello(received.value.payload);
      if decoded.Err? || decoded.value.role != peerRole {
        return None;
      }
      return Some(decoded.value);
    }

    /**
     * Sends the local hello, then waits for the peer's. Succeeds exactly when the handshake, the
     * transport and both hellos are good, and then holds the hello the incoming bytes start with
     * and leaves the stream at the frame that follows it.
     */
    method Establish(local: SessionHello, calls: seq<Handshake>) returns (ok: bool)
      requires stream.Valid()
      modifies this, stream, stream.pipe
      ensures stream.Valid()
      ensures ok <==>
        && !old(established) && local.role == localRole && !old(stream.closed) && Agreed(calls)
        && ValidHello(local) && !stream.pipe.broken && HelloInFront(old(stream.pipe.incoming), peerRole).Some?
      ensures ok ==> established && !stream.closed && peerHello.Some?
      ensures ok ==> HelloInFront(old(stream.pipe.incoming), peerRole) == Some((peerHello.value, stream.pipe.incoming))
      ensures ok ==> stream.pipe.outgoing == old(stream.pipe.outgoing) + Frame(HelloEnvelope(local))
      ensures !ok && !old(established) && local.role == localRole ==> !established && peerHello == None && stream.closed
      ensures old(established) || local.role != localRole ==>
        unchanged(this) && unchanged(stream) && unchanged(stream.pipe)
    {
      if established || local.role != localRole {
        return false;
      }
      ok := stream.DoHandshake(calls);
      if !ok {
        Stop();
        return false;
      }
      var hello := ExchangeHellos(local);
      if hello.None? {
        Stop();
        return false;
      }
      peerHello := hello;
      established := true;
      return true;
    }

    method Send(e: Envelope) returns (ok: bool)
      requires stream.Valid()
      modifies stream, stream.pipe
      ensures stream.Valid() && stream.pipe.incoming == old(stream.pipe.incoming)
      ensures ok <==> established && !old(stream.closed) && Sendable(e) && !stream.pipe.broken
      ensures ok ==> !stream.closed && stream.pipe.outgoing == old(stream.pipe.outgoing) + Frame(e)
      ensures Wrote(old(stream.pipe.outgoing), stream.pipe.outgoing, Frame(e))
      ensures !ok ==> |stream.pipe.outgoing| < |old(stream.pipe.outgoing)| + |Frame(e)|
      ensures !ok && established && !old(stream.closed) && Sendable(e) ==> stream.closed
      ensures old(stream.closed) ==> stream.closed
    {
      if !established {
        return false;
      }
      ok := stream.Write(e);
    }

    /** The coordinator's handler: heartbeats are acked here, a close request ends the session. */
    method Handle(e: Envelope, route: Envelope -> bool) returns (ok: bool)
      requires stream.Valid()
      modifies stream, stream.pipe
      ensures stream.Valid() && stream.pipe.incoming == old(stream.pipe.incoming)
      ensures ok ==> Accepted(e, route) && stream.closed == old(stream.closed)
      ensures ok ==> stream.pipe.outgoing == old(stream.pipe.outgoing) + AckFrame(e)
      // A heartbeat is answered under its own request id; a handler that returns true has sent nothing else.
      ensures ok && e.channel == 1 && e.kind == 0x0005 ==>
        stream.pipe.outgoing == old(stream.pipe.outgoing) + Frame(Envelope(1, 0x0006, 0, e.requestId, [1]))
      ensures ok && !(e.channel == 1 && e.kind == 0x0005) ==>
        !(e.channel == 1 && e.kind == 0x0007) && route(e) && stream.pipe.outgoing == old(stream.pipe.outgoing)
      ensures !ok && !(e.channel == 1 && e.kind == 0x0005) && !(e.channel == 1 && e.kind == 0x0007) ==> !route(e)
      ensures Wrote(old(stream.pipe.outgoing), stream.pipe.outgoing, AckFrame(e))
      ensures !ok && Accepted(e, route) ==>
        Heartbeat(e) && (!established || old(stream.closed) || !Sendable(AckFor(e)) || stream.pipe.broken)
      ensures old(stream.closed) ==> stream.closed
    {
      if Heartbeat(e) {
        ok := Send(AckFor(e));
      } else {
        ok := !CloseRequest(e) && route(e);
      }
    }

    /** One turn of the receive loop: a read, and the handler on what it gave; `stopped` stops the peer in between. */
    method ServeOne(route: Envelope -> bool, stopped: bool) returns (received: Option<Envelope>, ok: bool)
      requires stream.Valid()
      modifies this, stream, stream.pipe
      ensures stream.Valid()
      ensures established == (old(established) && !(stopped && received.Some?))
      ensures received.Some? && stopped ==> stream.closed
      ensures ok ==> received.Some? && (stopped || stream.closed == old(stream.closed))
      ensures received.Some? ==>
        var rest := stream.pipe.incoming;
        ParseNext(old(stream.pipe.incoming)) == Whole(received.value, rest)
      ensures received.Some? && ok ==> Accepted(received.value, route)
      ensures received.Some? && ok ==> stream.pipe.outgoing == old(stream.pipe.outgoing) + AckFrame(received.value)
      ensures received.Some? ==> Wrote(old(stream.pipe.outgoing), stream.pipe.outgoing, AckFrame(received.value))
      ensures received.Some? && !ok && Accepted(received.value, route) && old(established) ==>
        stream.pipe.broken || (stopped && Heartbeat(received.value))
      ensures received.None? ==> stream.closed && stream.pipe.outgoing == old(stream.pipe.outgoing)
      ensures old(stream.closed) ==> received.None?
      ensures received.None? ==> old(stream.closed) || stream.pipe.broken || ParseNext(old(stream.pipe.incoming)).Malformed?
    {
      received := stream.Read();
      ok := false;
      if received.Some? {
        WholeIffFrameInFront(old(stream.pipe.incoming), received.value, stream.pipe.incoming);
        if stopped {
          Stop();
        }
        ok := Handle(received.value, route);
      }
    }

    /**
     * One turn of the loop, with the stop if it is due: `more` says that the loop comes back to its
     * guard. `received` and `before` are what was to come in and what was out when the loop began.
     */
    method Turn(route: Envelope -> bool, stop: StopPoint, handled: seq<Envelope>, ghost received: seq<Envelope>, ghost before: seq<byte>)
      returns (more: bool, handledNow: seq<Envelope>)
      requires stream.Valid() && established
      requires Served(handled, received, stream.pipe.incoming, before, stream.pipe.outgoing, route)
      modifies this, stream, stream.pipe
      ensures stream.Valid()
      ensures more ==> Served(handledNow, received, stream.pipe.incoming, before, stream.pipe.outgoing, route)
      ensures more && established ==> |stream.pipe.incoming| < |old(stream.pipe.incoming)| && stream.closed == old(stream.closed)
      ensures more ==> |stream.pipe.incoming| <= |old(stream.pipe.incoming)|
      ensures more && !established ==> stream.closed && (stop.AtGuard? || stop.InHandler?) && |handledNow| >= stop.n
      ensures !more ==> !established && stream.closed
      ensures !more ==>
        GaveUp(old(stream.closed), stream.pipe.broken, stop, handledNow, received, before, stream.pipe.outgoing, route)
    {
      hide Served, GaveUp, Wrote, AckFrame;
      if stop.AtGuard? && |handled| >= stop.n {
        Stop();
        return true, handled;
      }
      if stop.BeforeRead? && |handled| >= stop.n {
        Stop();
      }
      ghost var bytes, written := stream.pipe.incoming, stream.pipe.outgoing;
      var e, ok := ServeOne(route, stop.InHandler? && |handled| >= stop.n);
      if e.None? {
        NothingMore(old(stream.closed), stream.pipe.broken, stop, handled, received, bytes, before, written, route);
        established := false;
        return false, handled;
      }
      handledNow := handled + [e.value];
      if ok {
        ServedOneMore(handled, received, bytes, e.value, stream.pipe.incoming, before, written, stream.pipe.outgoing, route);
        return true, handledNow;
      }
      LastOne(old(stream.closed), stream.pipe.broken, stop, handled, received, bytes, e.value, stream.pipe.incoming,
              before, written, stream.pipe.outgoing, route);
      Stop();
      return false, handledNow;
    }

    /** The receive loop, with at most one stop by another thread. `handled` is what the handler was called with. */
    method Run(route: Envelope -> bool, stop: StopPoint) returns (result: bool, handled: seq<Envelope>)
      requires stream.Valid()
      modifies this, stream, stream.pipe
      ensures stream.Valid()
      ensures !old(established) ==> !result && handled == [] && stream.pipe.outgoing == old(stream.pipe.outgoing)
      ensures old(established) ==> !established && stream.closed
      ensures InOrder(handled, ParseAll(old(stream.pipe.incoming)), route)
      // Acks one for one, until the one send that may fail.
      ensures AckTrail(old(stream.pipe.outgoing), stream.pipe.outgoing, handled)
      ensures ReadsAsAcks(old(stream.pipe.outgoing), stream.pipe.outgoing, handled)
      ensures result ==> (stop.AtGuard? || stop.InHandler?) && |handled| >= stop.n
      ensures result ==> stream.pipe.outgoing == old(stream.pipe.outgoing) + AckBytes(handled)
      // It gives up early only for a reason.
      ensures old(established) && !result ==>
        HasReason(old(stream.closed), stream.pipe.broken, stop, handled, ParseAll(old(stream.pipe.incoming)), route)
    {
      hide Served, AckTrail, AckBytes, ReadsAsAcks;
      handled := [];
      ghost var before, bytes := stream.pipe.outgoing, stream.pipe.incoming;
      ghost var received := ParseAll(bytes);
      ServedNothing(bytes, before, route);
      ServedSoFar([], received, bytes, before, before, route);
      HandledReadsAsAcks(bytes, before, before, [], route);
      result := established;
      while established
        invariant stream.Valid() && result == old(established)
        invariant old(established) ==> Served(handled, received, stream.pipe.incoming, before, stream.pipe.outgoing, route)
        invariant established ==> old(established) && stream.closed == old(stream.closed)
        invariant !old(established) ==> handled == [] && stream.pipe.outgoing == before
        invariant !established && old(established) ==> stream.closed && (stop.AtGuard? || stop.InHandler?) && |handled| >= stop.n
        decreases |stream.pipe.incoming|, established
      {
        var more;
        more, handled := Turn(route, stop, handled, received, before);
        if !more {
          HandledReadsAsAcks(bytes, before, stream.pipe.outgoing, handled, route);
          return false, handled;
        }
      }
      if result {
        ServedSoFar(handled, received, stream.pipe.incoming, before, stream.pipe.outgoing, route);
        HandledReadsAsAcks(bytes, before, stream.pipe.outgoing, handled, route);
      }
    }
  }
}

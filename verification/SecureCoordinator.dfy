/**
 * The secure coordinator as one thread at a time runs it: each method to its end, on the real
 * streams and peers. CoordinatorRuns interleaves the same methods step by step.
 */
module SecureCoordinator {
  import opened Protocol
  import opened Framing
  import opened TlsStream
  import opened Messages
  import opened SessionPeer

  class SecureCoordinator {
    const localHello: SessionHello
    var activeSocket: Ssl?
    var activeStream: Stream?
    var activePeer: SessionPeer?
    var establishedSessions: nat
    var running: bool
    var listener: bool

    /** The three active fields are null together, or belong to one connection. */
    ghost predicate Valid()
      reads this, activePeer, if activePeer == null then {} else {activePeer.stream, activePeer.stream.pipe}
    {
      && (activePeer == null <==> activeStream == null)
      && (activePeer == null <==> activeSocket == null)
      && (activePeer != null ==>
            && activeStream == activePeer.stream && activeSocket == activePeer.stream.pipe
            && activePeer.stream.Valid())
    }

    constructor (localHello: SessionHello)
      ensures Valid() && activePeer == null && !running && this.localHello == localHello && establishedSessions == 0
    {
      this.localHello := localHello;
      activeSocket, activeStream, activePeer := null, null, null;
      establishedSessions := 0;
      running, listener := false, false;
    }

    /** `listens` says whether the port could be opened. */
    method Start(listens: bool) returns (ok: bool)
      requires Valid()
      modifies this`running, this`listener
      ensures Valid()
      ensures ok <==> localHello.role == Windows && !old(running) && listens
      ensures running == (old(running) || ok) && listener == (old(listener) || ok)
    {
      if localHello.role != Windows {
        return false;
      }
      if running || !listens {
        return false;
      }
      listener := true;
      running := true;
      return true;
    }

    method Send(e: Envelope) returns (ok: bool)
      requires Valid()
      modifies activeStream, activeSocket
      ensures Valid() && (activePeer == null ==> !ok)
      ensures activePeer != null ==>
        && (ok <==> activePeer.established && !old(activeStream.closed) && Sendable(e) && !activeSocket.broken)
        && activeSocket.incoming == old(activeSocket.incoming)
        && (ok ==> activeSocket.outgoing == old(activeSocket.outgoing) + Frame(e))
        && Wrote(old(activeSocket.outgoing), activeSocket.outgoing, Frame(e))
    {
      if activePeer == null {
        return false;
      }
      ok := activePeer.Send(e);
    }

    /** Leaves nothing active, whatever was active is closed, and no accept loop is running. */
    method Stop()
      requires Valid()
      modifies this, activePeer, activeStream
      ensures Valid() && activePeer == null && activeStream == null && activeSocket == null
      ensures !running && (old(running) ==> !listener)
      ensures old(activePeer) != null ==> !old(activePeer).established && old(activeStream).closed
      ensures establishedSessions == old(establishedSessions)
    {
      if activePeer != null {
        activePeer.Stop();
      }
      if running {
        running := false;
        listener := false;
      }
      activePeer, activeStream, activeSocket := null, null, null;
    }

    /** An established connection while it is the active one: published, served, stopped and taken down again. */
    method ServeActive(peer: SessionPeer, route: Envelope -> bool) returns (handled: seq<Envelope>)
      requires Valid() && activePeer == null && peer.stream.Valid() && peer.established && !peer.stream.closed
      modifies this, peer, peer.stream, peer.stream.pipe
      ensures Valid() && activePeer == null
      ensures running == old(running) && listener == old(listener)
      ensures establishedSessions == old(establishedSessions) + 1
      ensures peer.stream.closed && !peer.established
      ensures InOrder(handled, ParseAll(old(peer.stream.pipe.incoming)), route)
      ensures AckTrail(old(peer.stream.pipe.outgoing), peer.stream.pipe.outgoing, handled)
      ensures handled != ParseAll(old(peer.stream.pipe.incoming)) ==>
        peer.stream.pipe.broken || (handled != [] && !Accepted(handled[|handled| - 1], route))
    {
      activeSocket, activeStream, activePeer := peer.stream.pipe, peer.stream, peer;
      establishedSessions := establishedSessions + 1;
      var result: bool;
      result, handled := peer.Run(route, Never);
      peer.Stop();
      if activePeer == peer {
        activePeer, activeStream, activeSocket := null, null, null;
      }
    }

    /**
     * One accepted connection from its handshake to its teardown. It is counted, and its envelopes
     * are handled, exactly if establishing it succeeds and nothing is active; the hello goes out
     * first, then the acks of the handled heartbeats in order. What is handled is, in order, what
     * follows the peer's hello. The active fields end up as they were, and the stream is closed.
     */
    method HandleSocket(pipe: Ssl, calls: seq<Handshake>, route: Envelope -> bool)
      returns (up: bool, peer: SessionPeer, handled: seq<Envelope>)
      requires Valid() && !pipe.broken && pipe != activeSocket
      modifies this, pipe
      ensures Valid()
      ensures activePeer == old(activePeer) && activeStream == old(activeStream) && activeSocket == old(activeSocket)
      ensures running == old(running) && listener == old(listener)
      ensures localHello.role == Windows ==> peer.stream.closed && !peer.established
      ensures establishedSessions == old(establishedSessions) + if up then 1 else 0
      ensures up ==>
        && old(activePeer) == null && Agreed(calls) && ValidHello(localHello) && localHello.role == Windows
        && HelloInFront(old(pipe.incoming), Android).Some?
      ensures up ==>
        var later := HelloInFront(old(pipe.incoming), Android).value.1;
        && InOrder(handled, ParseAll(later), route)
        && AckTrail(old(pipe.outgoing) + Frame(HelloEnvelope(localHello)), pipe.outgoing, handled)
        && (handled != ParseAll(later) ==> pipe.broken || (handled != [] && !Accepted(handled[|handled| - 1], route)))
      ensures !up ==> handled == []
      ensures !up && old(activePeer) == null && !pipe.broken && localHello.role == Windows ==>
        !Agreed(calls) || !ValidHello(localHello) || HelloInFront(old(pipe.incoming), Android).None?
    {
      handled := [];
      up := false;
      var stream := new Stream(pipe);
      peer := new SessionPeer(stream, Windows, Android);
      var ok := peer.Establish(localHello, calls);
      if !ok {
        return;
      }
      if activePeer != null {
        peer.Stop();
        return;
      }
      up := true;
      handled := ServeActive(peer, route);
    }
  }
}

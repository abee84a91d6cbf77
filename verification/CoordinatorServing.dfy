/** A connection's turns, its teardown, and a stop, when no other thread gets in between. */
module CoordinatorServing {
  import opened Bytes
  import opened Wrappers
  import opened Protocol
  import opened TlsStream
  import opened Heartbeats
  import opened CoordinatorRuns
  import opened CoordinatorProgress

  lemma GuardStep(s: State, c: nat, k: Conn)
    requires !s.aborted && At(s, c)
    ensures Do(InThread(s, c, k, Running(c)), RunGuard) ==
      Some(InThread(s, c, k, if k.established then Reading(c) else Ending(c, false)))
  {
    InThreadAgain(s, c, k, k, Running(c), if k.established then Reading(c) else Ending(c, false));
    assert s.conns[c := k][c := k] == s.conns[c := k];
  }

  lemma ReceiveStep(s: State, c: nat, k: Conn, e: Envelope)
    requires !s.aborted && At(s, c) && Sendable(e)
    ensures Do(InThread(s, c, k, Reading(c)), Received(e)) ==
      Some(InThread(s, c, k.(handled := k.handled + [e]), Handling(c, e)))
  {
    InThreadAgain(s, c, k, k.(handled := k.handled + [e]), Reading(c), Handling(c, e));
  }

  lemma AnswerStep(s: State, c: nat, k: Conn, e: Envelope, ok: bool)
    requires !s.aborted && At(s, c) && !(e.channel == 1 && e.kind == 0x0005)
    ensures var go := ok && !(e.channel == 1 && e.kind == 0x0007);
      Do(InThread(s, c, k, Handling(c, e)), HandlerAnswers(ok)) ==
        Some(InThread(s, c, k.(answers := k.answers + [go]), if go then Running(c) else Ending(c, true)))
  {
    var go := ok && !(e.channel == 1 && e.kind == 0x0007);
    InThreadAgain(s, c, k, k.(answers := k.answers + [go]), Handling(c, e), if go then Running(c) else Ending(c, true));
  }

  /**
   * A turn on anything but a heartbeat: the envelope is handled, and the loop goes on exactly if the
   * router takes it and it is no close request.
   */
  lemma UndisturbedTurn(s: State, c: nat, e: Envelope, ok: bool)
    requires !s.aborted && s.accept == Running(c) && At(s, c) && s.conns[c].established && Sendable(e)
    requires !(e.channel == 1 && e.kind == 0x0005)
    ensures var go := ok && !(e.channel == 1 && e.kind == 0x0007);
      var k := s.conns[c];
      Leads(s, [RunGuard, Received(e), HandlerAnswers(ok)],
            InThread(s, c, k.(handled := k.handled + [e], answers := k.answers + [go]), if go then Running(c) else Ending(c, true)))
  {
    hide Do, Leads, InThread;
    var go := ok && !(e.channel == 1 && e.kind == 0x0007);
    var k := s.conns[c];
    var k1 := k.(handled := k.handled + [e]);
    var s1, s2 := InThread(s, c, k, Reading(c)), InThread(s, c, k1, Handling(c, e));
    var s3 := InThread(s, c, k1.(answers := k.answers + [go]), if go then Running(c) else Ending(c, true));
    InThreadNow(s, c);
    GuardStep(s, c, k);
    ReceiveStep(s, c, k, e);
    AnswerStep(s, c, k1, e, ok);
    LeadsOne(s, RunGuard, s1);
    LeadsOneMore(s, [RunGuard], s1, Received(e), s2);
    LeadsOneMore(s, [RunGuard] + [Received(e)], s2, HandlerAnswers(ok), s3);
    assert [RunGuard] + [Received(e)] + [HandlerAnswers(ok)] == [RunGuard, Received(e), HandlerAnswers(ok)];
  }

  /** The ack the source sends for a heartbeat with this request id. */
  function AckWithId(id: u64): Envelope {
    Envelope(1, 0x0006, 0, id, [1])
  }

  /** The handler has begun to send the ack of e. */
  function AckBegun(s: State, c: nat, k: Conn, call: nat, e: Envelope): State
    requires At(s, c)
  {
    InCall(s.(accept := Acking(c, call)), c, k.(acks := k.acks + [call]), call, Copied(Some(c), AckWithId(e.requestId)))
  }

  lemma AckBeginStep(s: State, c: nat, k: Conn, call: nat, e: Envelope)
    requires !s.aborted && At(s, c) && e.channel == 1 && e.kind == 0x0005 && call !in s.sends
    ensures Do(InThread(s, c, k, Handling(c, e)), AckBegin(call)) ==
      Some(AckBegun(s, c, k, call, e))
  {
    assert s.conns[c := k][c := k.(acks := k.acks + [call])] == s.conns[c := k.(acks := k.acks + [call])];
  }

  lemma AckEndStep(s: State, c: nat, k: Conn, call: nat, pc: SendPc)
    requires !s.aborted && At(s, c) && s.accept == Acking(c, call) && pc.SendDone?
    ensures Do(InCall(s, c, k, call, pc), AckEnd) ==
      Some(InCall(s, c, k.(answers := k.answers + [pc.ok]), call, pc).(accept := if pc.ok then Running(c) else Ending(c, true)))
  {
    assert s.conns[c := k][c := k.(answers := k.answers + [pc.ok])] == s.conns[c := k.(answers := k.answers + [pc.ok])];
  }

  lemma UpToAck(s: State, c: nat, call: nat, e: Envelope)
    requires !s.aborted && s.accept == Running(c) && At(s, c) && s.conns[c].established && Sendable(e)
    requires e.channel == 1 && e.kind == 0x0005 && call !in s.sends
    ensures var k := s.conns[c];
      Leads(s, [RunGuard, Received(e), AckBegin(call)],
            AckBegun(s, c, k.(handled := k.handled + [e]), call, e))
  {
    hide Do, Leads;
    var k := s.conns[c];
    var k1 := k.(handled := k.handled + [e]);
    var s1, s2 := InThread(s, c, k, Reading(c)), InThread(s, c, k1, Handling(c, e));
    var s3 := AckBegun(s, c, k1, call, e);
    InThreadNow(s, c);
    GuardStep(s, c, k);
    ReceiveStep(s, c, k, e);
    AckBeginStep(s, c, k1, call, e);
    LeadsOne(s, RunGuard, s1);
    LeadsOneMore(s, [RunGuard], s1, Received(e), s2);
    LeadsOneMore(s, [RunGuard] + [Received(e)], s2, AckBegin(call), s3);
    assert [RunGuard] + [Received(e)] + [AckBegin(call)] == [RunGuard, Received(e), AckBegin(call)];
  }

  /** What a turn on a heartbeat does to its connection: k before, k' after, n bytes of the ack out. */
  predicate HeartbeatOutcome(k: Conn, k': Conn, call: nat, e: Envelope, n: nat, ok: bool) {
    var ack := Frame(AckWithId(e.requestId));
    && k'.handled == k.handled + [e] && k'.acks == k.acks + [call] && k'.answers == k.answers + [ok]
    && k'.closed == !ok && k'.established && AtRest(k') == ok
    && n <= |ack| && (ok <==> n == |ack|)
    && k'.wire.out == k.wire.out + ack[..n]
  }

  /**
   * A turn on a heartbeat on an open connection at rest: exactly the ack with the heartbeat's own
   * request id goes out and the loop goes on, exactly if no SSL call fails; else the loop ends.
   */
  lemma UndisturbedHeartbeat(s: State, c: nat, call: nat, e: Envelope, ios: seq<Io>) returns (s': State, n: nat)
    requires !s.aborted && s.accept == Running(c) && At(s, c) && call !in s.sends && AtRest(s.conns[c])
    requires s.conns[c].established && !s.conns[c].closed && Sendable(e) && e.channel == 1 && e.kind == 0x0005
    requires Decides(|Frame(AckWithId(e.requestId))|, ios)
    ensures Leads(s, [RunGuard, Received(e), AckBegin(call)]
                     + SendSteps(s.conns[c].(handled := s.conns[c].handled + [e], acks := s.conns[c].acks + [call]), call, AckWithId(e.requestId), ios)
                     + [AckEnd], s')
    ensures At(s', c) && s'.accept == if Succeeds(ios) then Running(c) else Ending(c, true)
    ensures HeartbeatOutcome(s.conns[c], s'.conns[c], call, e, n, Succeeds(ios))
  {
    hide Do, Leads, Decides, Frame;
    var k, ack := s.conns[c], AckWithId(e.requestId);
    var k1 := k.(handled := k.handled + [e], acks := k.acks + [call]);
    var a := s.(accept := Acking(c, call));
    UpToAck(s, c, call, e);
    var k2, pc;
    k2, n, pc := SendFromCopied(a, c, k1, call, ack, ios);
    var s1, s2 := InCall(a, c, k1, call, Copied(Some(c), ack)), InCall(a, c, k2, call, pc);
    AckEndStep(a, c, k2, call, pc);
    s' := InCall(a, c, k2.(answers := k2.answers + [pc.ok]), call, pc).(accept := if pc.ok then Running(c) else Ending(c, true));
    LeadsThen(s, [RunGuard, Received(e), AckBegin(call)], s1, SendSteps(k1, call, ack, ios), s2);
    LeadsOneMore(s, [RunGuard, Received(e), AckBegin(call)] + SendSteps(k1, call, ack, ios), s2, AckEnd, s');
  }

  // ---- the end of a connection ----

  lemma ReadFailsStep(s: State, c: nat)
    requires !s.aborted && s.accept == Reading(c) && At(s, c)
    ensures Do(s, ReadFails) == Some(InThread(s, c, s.conns[c].(closed := true), Marking(c)))
  {
  }

  lemma MarkStep(s: State, c: nat, k: Conn)
    requires !s.aborted && At(s, c)
    ensures Do(InThread(s, c, k, Marking(c)), MarkFailed) == Some(InThread(s, c, k.(established := false), Ending(c, false)))
  {
    InThreadAgain(s, c, k, k.(established := false), Marking(c), Ending(c, false));
  }

  /** A read that gives nothing closes the stream and ends the loop. */
  lemma UndisturbedReadFailure(s: State, c: nat)
    requires !s.aborted && s.accept == Reading(c) && At(s, c)
    ensures Leads(s, [ReadFails, MarkFailed],
                  InThread(s, c, s.conns[c].(closed := true, established := false), Ending(c, false)))
  {
    hide Do, Leads, InThread;
    var k := s.conns[c];
    ReadFailsStep(s, c);
    MarkStep(s, c, k.(closed := true));
    var s1 := InThread(s, c, k.(closed := true), Marking(c));
    var s2 := InThread(s, c, k.(closed := true, established := false), Ending(c, false));
    LeadsOne(s, ReadFails, s1);
    LeadsOneMore(s, [ReadFails], s1, MarkFailed, s2);
    assert [ReadFails] + [MarkFailed] == [ReadFails, MarkFailed];
  }

  lemma EndLockStep(s: State, c: nat, k: Conn, again: bool)
    requires !s.aborted && At(s, c) && k.holder.Free?
    ensures Do(InThread(s, c, k, Ending(c, again)), EndLock) ==
      Some(InThread(s, c, k.(holder := Handler, established := false, ended := true), EndLocked(c, again)))
  {
    InThreadAgain(s, c, k, k.(holder := Handler, established := false, ended := true), Ending(c, again), EndLocked(c, again));
  }

  lemma EndCloseStep(s: State, c: nat, k: Conn, again: bool)
    requires !s.aborted && At(s, c)
    ensures Do(InThread(s, c, k, EndLocked(c, again)), EndClose) ==
      Some(InThread(s, c, k.(holder := Free, closed := true), if again then Ending(c, false) else Clearing(c)))
  {
    InThreadAgain(s, c, k, k.(holder := Free, closed := true), EndLocked(c, again), if again then Ending(c, false) else Clearing(c));
  }

  lemma ClearStep(s: State, c: nat, k: Conn)
    requires !s.aborted && At(s, c)
    ensures Do(InThread(s, c, k, Clearing(c)), EndClear) ==
      Some(if s.activePeer == Some(c) then InThread(s, c, k, Releasing(c)).(activePeer := None, activeStream := None, activeSocket := None)
           else InThread(s, c, k, Releasing(c)))
  {
  }

  lemma ReleaseStep(s: State, c: nat, k: Conn)
    requires !s.aborted && At(s, c)
    ensures Do(InThread(s, c, k, Releasing(c)), Release) == Some(InThread(s, c, k.(released := true), Looping))
  {
    InThreadAgain(s, c, k, k.(released := true), Releasing(c), Looping);
  }

  /** One peer->stop() by the handler. */
  lemma HandlerStops(s: State, c: nat, k: Conn, again: bool)
    requires !s.aborted && At(s, c) && k.holder.Free?
    ensures Leads(InThread(s, c, k, Ending(c, again)), [EndLock, EndClose],
                  InThread(s, c, k.(established := false, ended := true, closed := true), if again then Ending(c, false) else Clearing(c)))
  {
    hide Do, Leads, InThread;
    var m := k.(holder := Handler, established := false, ended := true);
    EndLockStep(s, c, k, again);
    EndCloseStep(s, c, m, again);
    assert m.(holder := Free, closed := true) == k.(established := false, ended := true, closed := true);
    var s0, s1 := InThread(s, c, k, Ending(c, again)), InThread(s, c, m, EndLocked(c, again));
    var s2 := InThread(s, c, k.(established := false, ended := true, closed := true), if again then Ending(c, false) else Clearing(c));
    LeadsOne(s0, EndLock, s1);
    LeadsOneMore(s0, [EndLock], s1, EndClose, s2);
    assert [EndLock] + [EndClose] == [EndLock, EndClose];
  }

  function EndSteps(again: bool): seq<Step> {
    (if again then [EndLock, EndClose] else []) + [EndLock, EndClose] + [EndClear, Release]
  }

  /** The state after a connection's teardown: c closed and released, nothing active if it was c. */
  function TornDown(s: State, c: nat): State
    requires At(s, c)
  {
    var t := InThread(s, c, s.conns[c].(established := false, ended := true, closed := true, released := true), Looping);
    if s.activePeer == Some(c) then t.(activePeer := None, activeStream := None, activeSocket := None) else t
  }

  lemma ClearAndRelease(s: State, c: nat, k: Conn)
    requires !s.aborted && At(s, c)
    ensures var t := InThread(s, c, k.(released := true), Looping);
      Leads(InThread(s, c, k, Clearing(c)), [EndClear, Release],
            if s.activePeer == Some(c) then t.(activePeer := None, activeStream := None, activeSocket := None) else t)
  {
    hide Do, Leads;
    var a := if s.activePeer == Some(c) then s.(activePeer := None, activeStream := None, activeSocket := None) else s;
    var s0, s1, s2 := InThread(s, c, k, Clearing(c)), InThread(a, c, k, Releasing(c)), InThread(a, c, k.(released := true), Looping);
    ClearStep(s, c, k);
    ReleaseStep(a, c, k);
    LeadsOne(s0, EndClear, s1);
    LeadsOneMore(s0, [EndClear], s1, Release, s2);
    assert [EndClear] + [Release] == [EndClear, Release];
  }

  lemma UndisturbedTeardown(s: State, c: nat, again: bool)
    requires !s.aborted && s.accept == Ending(c, again) && At(s, c) && s.conns[c].holder.Free?
    ensures Leads(s, EndSteps(again), TornDown(s, c))
  {
    hide Do, Leads;
    var k := s.conns[c];
    var m := k.(established := false, ended := true, closed := true);
    InThreadNow(s, c);
    HandlerStops(s, c, k, again);
    var first := if again then [EndLock, EndClose] else [];
    var s1 := InThread(s, c, m, Clearing(c));
    if again {
      HandlerStops(s, c, m, false);
      assert m.(established := false, ended := true, closed := true) == m;
      LeadsThen(s, [EndLock, EndClose], InThread(s, c, m, Ending(c, false)), [EndLock, EndClose], s1);
    } else {
      assert [] + [EndLock, EndClose] == [EndLock, EndClose];
    }
    ClearAndRelease(s, c, m);
    LeadsThen(s, first + [EndLock, EndClose], s1, [EndClear, Release], TornDown(s, c));
  }

  /** A handshake or a hello that is no good: the connection is closed and given up, and the thread accepts again. */
  lemma UndisturbedRefusal(s: State, c: nat)
    requires !s.aborted && At(s, c) && (s.accept == Establishing(c) || s.accept == AwaitHello(c))
    ensures Leads(s, [EstablishFails, Release],
                  InThread(s, c, s.conns[c].(closed := true, ended := true, released := true), Looping))
  {
    hide Do, Leads;
    var k := s.conns[c].(closed := true, ended := true);
    var s1, s2 := InThread(s, c, k, Releasing(c)), InThread(s, c, k.(released := true), Looping);
    RefuseStep(s, c);
    ReleaseStep(s, c, k);
    LeadsOne(s, EstablishFails, s1);
    LeadsOneMore(s, [EstablishFails], s1, Release, s2);
    assert [EstablishFails] + [Release] == [EstablishFails, Release];
  }

  lemma RefuseStep(s: State, c: nat)
    requires !s.aborted && At(s, c) && (s.accept == Establishing(c) || s.accept == AwaitHello(c))
    ensures Do(s, EstablishFails) == Some(InThread(s, c, s.conns[c].(closed := true, ended := true), Releasing(c)))
  {
  }

  /**
   * The accept loop between connections: while the coordinator runs and listens, a wait that times
   * out and an accept that fails both come back to where they began; once it does not, the thread
   * exits, from the check or from the failed accept.
   */
  lemma UndisturbedAcceptLoop(s: State)
    requires !s.aborted
    ensures s.accept.Looping? && s.running && s.listener ==> Leads(s, [AcceptCheck, AcceptAgain], s) && Leads(s, [AcceptCheck, AcceptFailed], s)
    ensures s.accept.Looping? && !(s.running && s.listener) ==> Leads(s, [AcceptCheck], s.(accept := Exited))
    ensures s.accept.Selecting? && !s.running ==> Leads(s, [AcceptFailed], s.(accept := Exited))
    ensures s.accept.Selecting? && !s.running ==> Leads(s, [AcceptAgain, AcceptCheck], s.(accept := Exited))
  {
    hide Leads;
    var m, out, back := s.(accept := Selecting), s.(accept := Exited), s.(accept := Looping);
    if s.accept.Looping? && s.running && s.listener {
      assert Do(s, AcceptCheck) == Some(m) && Do(m, AcceptAgain) == Some(s) && Do(m, AcceptFailed) == Some(s);
      LeadsOne(s, AcceptCheck, m);
      LeadsOneMore(s, [AcceptCheck], m, AcceptAgain, s);
      LeadsOneMore(s, [AcceptCheck], m, AcceptFailed, s);
      assert [AcceptCheck] + [AcceptAgain] == [AcceptCheck, AcceptAgain];
      assert [AcceptCheck] + [AcceptFailed] == [AcceptCheck, AcceptFailed];
    } else if s.accept.Looping? {
      LeadsOne(s, AcceptCheck, out);
    } else if s.accept.Selecting? && !s.running {
      LeadsOne(s, AcceptFailed, out);
      LeadsOne(s, AcceptAgain, back);
      LeadsOneMore(s, [AcceptAgain], back, AcceptCheck, out);
      assert [AcceptAgain] + [AcceptCheck] == [AcceptAgain, AcceptCheck];
    }
  }

  // ---- a stop ----

  lemma StopPeer(s: State, c: nat, call: nat)
    requires !s.aborted && At(s, c) && s.activePeer == Some(c) && s.conns[c].holder.Free? && call !in s.stops
    ensures Leads(s, [StopBegin(call), StopLock(call), StopClose(call)],
                  StopAt(With(s, c, s.conns[c].(established := false, ended := true, closed := true)), call, PeerStopped))
  {
    hide Leads;
    var k := s.conns[c];
    var m := k.(holder := Stopper(call), established := false, ended := true);
    var k' := k.(established := false, ended := true, closed := true);
    var s1, s2, s3 := StopAt(s, call, StopCopied(Some(c))), StopAt(With(s, c, m), call, StopLocked(c)), StopAt(With(s, c, k'), call, PeerStopped);
    StopBeginStep(s, call);
    StopLockStep(s, c, call);
    StopCloseStep(s, c, m, call);
    assert m.(holder := Free, closed := true) == k';
    LeadsOne(s, StopBegin(call), s1);
    LeadsOneMore(s, [StopBegin(call)], s1, StopLock(call), s2);
    LeadsOneMore(s, [StopBegin(call)] + [StopLock(call)], s2, StopClose(call), s3);
    assert [StopBegin(call)] + [StopLock(call)] + [StopClose(call)] == [StopBegin(call), StopLock(call), StopClose(call)];
  }

  lemma StopBeginStep(s: State, call: nat)
    requires !s.aborted && call !in s.stops
    ensures Do(s, StopBegin(call)) == Some(StopAt(s, call, StopCopied(s.activePeer)))
  {
  }

  lemma StopLockStep(s: State, c: nat, call: nat)
    requires !s.aborted && At(s, c) && s.conns[c].holder.Free?
    ensures Do(StopAt(s, call, StopCopied(Some(c))), StopLock(call)) ==
      Some(StopAt(With(s, c, s.conns[c].(holder := Stopper(call), established := false, ended := true)), call, StopLocked(c)))
  {
    assert s.stops[call := StopCopied(Some(c))][call := StopLocked(c)] == s.stops[call := StopLocked(c)];
  }

  lemma StopCloseStep(s: State, c: nat, m: Conn, call: nat)
    requires !s.aborted && At(s, c)
    ensures Do(StopAt(With(s, c, m), call, StopLocked(c)), StopClose(call)) ==
      Some(StopAt(With(s, c, m.(holder := Free, closed := true)), call, PeerStopped))
  {
    assert s.stops[call := StopLocked(c)][call := PeerStopped] == s.stops[call := PeerStopped];
    assert s.conns[c := m][c := m.(holder := Free, closed := true)] == s.conns[c := m.(holder := Free, closed := true)];
  }

  lemma StopExchangeStep(s: State, call: nat)
    requires !s.aborted && call in s.stops && s.stops[call].PeerStopped?
    ensures Do(s, StopExchange(call)) ==
      Some(if s.running then StopAt(s.(running := false), call, Joining(s.epoch)) else StopAt(s, call, ClearingAll(None)))
  {
  }

  /** The state a stop that won leaves behind, from the accept thread's exit on. */
  function Stopped(s: State, call: nat, epoch: nat): State {
    StopAt(s.(joinable := false, listener := false, activePeer := None, activeStream := None, activeSocket := None),
           call, StopDone(Some(epoch)))
  }

  lemma StopEnd(s: State, call: nat, epoch: nat)
    requires !s.aborted && call in s.stops && s.stops[call] == Joining(epoch) && s.accept.Exited?
    ensures Leads(s, [StopJoin(call), StopReset(call), StopClear(call)], Stopped(s, call, epoch))
  {
    hide Leads;
    var s1 := StopAt(s.(joinable := false), call, Joined(epoch));
    var s2 := StopAt(s.(joinable := false, listener := false), call, ClearingAll(Some(epoch)));
    var s3 := Stopped(s, call, epoch);
    JoinStep(s, call, epoch);
    ResetStep(s.(joinable := false), call, epoch);
    StopClearStep(s.(joinable := false, listener := false), call, Some(epoch));
    LeadsOne(s, StopJoin(call), s1);
    LeadsOneMore(s, [StopJoin(call)], s1, StopReset(call), s2);
    LeadsOneMore(s, [StopJoin(call)] + [StopReset(call)], s2, StopClear(call), s3);
    assert [StopJoin(call)] + [StopReset(call)] + [StopClear(call)] == [StopJoin(call), StopReset(call), StopClear(call)];
  }

  lemma JoinStep(s: State, call: nat, epoch: nat)
    requires !s.aborted && call in s.stops && s.stops[call] == Joining(epoch) && s.accept.Exited?
    ensures Do(s, StopJoin(call)) == Some(StopAt(s.(joinable := false), call, Joined(epoch)))
  {
  }

  lemma ResetStep(s: State, call: nat, epoch: nat)
    requires !s.aborted
    ensures Do(StopAt(s, call, Joined(epoch)), StopReset(call)) == Some(StopAt(s.(listener := false), call, ClearingAll(Some(epoch))))
  {
    assert s.stops[call := Joined(epoch)][call := ClearingAll(Some(epoch))] == s.stops[call := ClearingAll(Some(epoch))];
  }

  lemma StopClearStep(s: State, call: nat, won: Option<nat>)
    requires !s.aborted
    ensures Do(StopAt(s, call, ClearingAll(won)), StopClear(call)) ==
      Some(StopAt(s.(activePeer := None, activeStream := None, activeSocket := None), call, StopDone(won)))
  {
    assert s.stops[call := ClearingAll(won)][call := StopDone(won)] == s.stops[call := StopDone(won)];
  }

  /** The handler after the stop: its read fails, it tears c down, and the accept thread exits. */
  lemma HandlerLeaves(s: State, c: nat) returns (s': State)
    requires !s.aborted && !s.running && s.accept == Reading(c) && At(s, c) && s.conns[c].holder.Free?
    ensures Leads(s, [ReadFails, MarkFailed] + EndSteps(false) + [AcceptCheck], s')
    ensures s' == TornDown(s, c).(accept := Exited)
  {
    hide Do, Leads;
    var k := s.conns[c];
    var m := k.(closed := true, established := false);
    var s1 := InThread(s, c, m, Ending(c, false));
    UndisturbedReadFailure(s, c);
    UndisturbedTeardown(s1, c, false);
    LeadsThen(s, [ReadFails, MarkFailed], s1, EndSteps(false), TornDown(s1, c));
    s' := TornDown(s1, c).(accept := Exited);
    ExitStep(TornDown(s1, c));
    LeadsOneMore(s, [ReadFails, MarkFailed] + EndSteps(false), TornDown(s1, c), AcceptCheck, s');
    TearingTwice(s, c, m);
  }

  lemma ExitStep(s: State)
    requires !s.aborted && !s.running && s.accept.Looping?
    ensures Do(s, AcceptCheck) == Some(s.(accept := Exited))
  {
  }

  lemma TearingTwice(s: State, c: nat, m: Conn)
    requires At(s, c) && m == s.conns[c].(closed := true, established := false)
    ensures TornDown(InThread(s, c, m, Ending(c, false)), c) == TornDown(s, c)
  {
    var r := m.(ended := true, released := true);
    assert m.(established := false, ended := true, closed := true, released := true) == r;
    assert s.conns[c].(established := false, ended := true, closed := true, released := true) == r;
    InThreadAgain(s, c, m, r, Ending(c, false), Looping);
  }

  function StopSteps(call: nat): seq<Step> {
    [StopBegin(call), StopLock(call), StopClose(call)] + [StopExchange(call)]
    + ([ReadFails, MarkFailed] + EndSteps(false) + [AcceptCheck]) + [StopJoin(call), StopReset(call), StopClear(call)]
  }

  /**
   * A stop of a running coordinator whose handler waits for c, with no one else about: it returns as
   * the winner with nothing running, listening, active or to join, c closed and released with its
   * wire as it was, and every other connection untouched.
   */
  lemma UndisturbedStop(s: State, c: nat, call: nat) returns (s': State)
    requires !s.aborted && s.running && s.accept == Reading(c) && At(s, c)
    requires s.activePeer == Some(c) && s.conns[c].holder.Free? && call !in s.stops
    ensures Leads(s, StopSteps(call), s')
    ensures call in s'.stops && s'.stops[call] == StopDone(Some(s.epoch))
    ensures !s'.running && !s'.listener && !s'.joinable && s'.accept.Exited? && s'.sends == s.sends && s'.epoch == s.epoch
    ensures s'.activePeer.None? && s'.activeStream.None? && s'.activeSocket.None?
    ensures s'.conns == s.conns[c := s.conns[c].(established := false, ended := true, closed := true, released := true)]
  {
    hide Do, Leads, EndSteps;
    var k' := s.conns[c].(established := false, ended := true, closed := true);
    var s1 := StopAt(With(s, c, k'), call, PeerStopped);
    var s2 := StopAt(s1.(running := false), call, Joining(s.epoch));
    StopPeer(s, c, call);
    StopExchangeStep(s1, call);
    LeadsOneMore(s, [StopBegin(call), StopLock(call), StopClose(call)], s1, StopExchange(call), s2);
    var first := [StopBegin(call), StopLock(call), StopClose(call)] + [StopExchange(call)];
    var s3 := HandlerLeaves(s2, c);
    LeadsThen(s, first, s2, [ReadFails, MarkFailed] + EndSteps(false) + [AcceptCheck], s3);
    StopEnd(s3, call, s.epoch);
    s' := Stopped(s3, call, s.epoch);
    LeadsThen(s, first + ([ReadFails, MarkFailed] + EndSteps(false) + [AcceptCheck]), s3,
              [StopJoin(call), StopReset(call), StopClear(call)], s');
  }

  /** A start, and a stop while no connection is up: everything is as before the start but for the epoch and the call. */
  lemma UndisturbedStartAndStop(s: State, call: nat)
    requires !s.aborted && !s.running && !s.listener && !s.joinable && s.accept.Exited? && call !in s.stops
    requires s.activePeer.None? && s.activeStream.None? && s.activeSocket.None?
    ensures var up := s.(running := true, listener := true, joinable := true, epoch := s.epoch + 1, accept := Looping);
      && Leads(s, [Start], up)
      && Leads(up, [StopBegin(call), StopLock(call)] + [StopExchange(call)] + [AcceptCheck] + [StopJoin(call), StopReset(call), StopClear(call)],
               StopAt(s.(epoch := s.epoch + 1), call, StopDone(Some(s.epoch + 1))))
  {
    hide Leads, Do;
    var up := s.(running := true, listener := true, joinable := true, epoch := s.epoch + 1, accept := Looping);
    var s1, s2 := StopAt(up, call, StopCopied(None)), StopAt(up, call, PeerStopped);
    var s3 := StopAt(up.(running := false), call, Joining(up.epoch));
    var s4 := s3.(accept := Exited);
    StartStep(s);
    StopBeginStep(up, call);
    IdleLockStep(up, call);
    StopExchangeStep(s2, call);
    assert s2.stops[call := Joining(up.epoch)] == s3.stops;
    ExitStep(s3);
    StopEnd(s4, call, up.epoch);
    LeadsOne(s, Start, up);
    LeadsOne(up, StopBegin(call), s1);
    LeadsOneMore(up, [StopBegin(call)], s1, StopLock(call), s2);
    assert [StopBegin(call)] + [StopLock(call)] == [StopBegin(call), StopLock(call)];
    LeadsOneMore(up, [StopBegin(call), StopLock(call)], s2, StopExchange(call), s3);
    LeadsOneMore(up, [StopBegin(call), StopLock(call)] + [StopExchange(call)], s3, AcceptCheck, s4);
    LeadsThen(up, [StopBegin(call), StopLock(call)] + [StopExchange(call)] + [AcceptCheck], s4,
              [StopJoin(call), StopReset(call), StopClear(call)], Stopped(s4, call, up.epoch));
    assert s4.stops[call := StopDone(Some(up.epoch))] == s.stops[call := StopDone(Some(up.epoch))];
  }

  lemma StartStep(s: State)
    requires !s.aborted && !s.running && !s.joinable
    ensures Do(s, Start) == Some(s.(running := true, listener := true, joinable := true, epoch := s.epoch + 1, accept := Looping))
  {
  }

  /** A stop of a coordinator that is not running only clears what is active. */
  lemma StopWhenNotRunning(s: State, call: nat)
    requires !s.aborted && !s.running && s.activePeer.None? && call !in s.stops
    ensures Leads(s, [StopBegin(call), StopLock(call), StopExchange(call), StopClear(call)],
                  StopAt(s.(activePeer := None, activeStream := None, activeSocket := None), call, StopDone(None)))
  {
    hide Do, Leads;
    var s1, s2, s3 := StopAt(s, call, StopCopied(None)), StopAt(s, call, PeerStopped), StopAt(s, call, ClearingAll(None));
    var s4 := StopAt(s.(activePeer := None, activeStream := None, activeSocket := None), call, StopDone(None));
    StopBeginStep(s, call);
    IdleLockStep(s, call);
    StopExchangeStep(s2, call);
    assert s2.stops[call := ClearingAll(None)] == s3.stops;
    StopClearStep(s, call, None);
    LeadsOne(s, StopBegin(call), s1);
    LeadsOneMore(s, [StopBegin(call)], s1, StopLock(call), s2);
    LeadsOneMore(s, [StopBegin(call)] + [StopLock(call)], s2, StopExchange(call), s3);
    LeadsOneMore(s, [StopBegin(call)] + [StopLock(call)] + [StopExchange(call)], s3, StopClear(call), s4);
    assert [StopBegin(call)] + [StopLock(call)] + [StopExchange(call)] + [StopClear(call)]
        == [StopBegin(call), StopLock(call), StopExchange(call), StopClear(call)];
  }

  lemma IdleLockStep(s: State, call: nat)
    requires !s.aborted
    ensures Do(StopAt(s, call, StopCopied(None)), StopLock(call)) == Some(StopAt(s, call, PeerStopped))
  {
    assert s.stops[call := StopCopied(None)][call := PeerStopped] == s.stops[call := PeerStopped];
  }
}

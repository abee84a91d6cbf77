/** What is on each connection's wire: the other half of what every step of the threads keeps. */
module CoordinatorWires {
  import opened Wrappers
  import opened Protocol
  import opened TlsStream
  import opened CoordinatorRuns
  import opened CoordinatorInvariant

  /** The last frame is cut only while its write loop runs or once the stream is closed. */
  predicate ConnWireOk(k: Conn) {
    && |k.wire.owners| == |k.wire.committed|
    && k.wire.sent <= |k.wire.frame|
    && (!AllOut(k.wire) ==> k.closed || k.writing)
    && (k.published && !k.holder.Sender? ==> !k.writing)
  }

  /** The envelope sits in the call's own place among the committed ones, and its frame is all out. */
  predicate Delivered(s: State, call: nat, e: Envelope, slot: Slot) {
    && At(s, slot.conn)
    && var w := s.conns[slot.conn].wire;
    && slot.index < |w.committed| == |w.owners|
    && w.committed[slot.index] == e
    && w.owners[slot.index] == Some(call)
    && (slot.index == |w.committed| - 1 ==> AllOut(w))
  }

  predicate SendWireOk(s: State, call: nat)
    requires call in s.sends
  {
    match s.sends[call]
    case Copied(_, _) => true
    case Locked(c, _) => At(s, c) && !s.conns[c].writing
    case Checked(c, _) => At(s, c) && !s.conns[c].writing
    case Writing(c, e) =>
      && At(s, c)
      && var w := s.conns[c].wire;
      && s.conns[c].writing && w.committed != [] && w.committed[|w.committed| - 1] == e && !AllOut(w)
      && |w.owners| == |w.committed| && w.owners[|w.owners| - 1] == Some(call)
    case SendDone(ok, e, slot) => ok ==> slot.Some? && Delivered(s, call, e, slot.value)
  }

  predicate HelloOnly(s: State, c: nat) {
    At(s, c) && s.conns[c].wire.committed == [s.hello]
  }

  predicate AcceptWireOk(s: State) {
    match s.accept
    case Establishing(c) => At(s, c) && s.conns[c].wire.committed == [] && AllOut(s.conns[c].wire) && !s.conns[c].writing
    case Helloing(c) => HelloOnly(s, c) && !AllOut(s.conns[c].wire)
    case AwaitHello(c) => HelloOnly(s, c) && AllOut(s.conns[c].wire) && !s.conns[c].writing
    case Publishing(c) => HelloOnly(s, c) && AllOut(s.conns[c].wire) && !s.conns[c].writing
    case _ => true
  }

  predicate Wires(s: State) {
    && AcceptWireOk(s)
    && (forall c | 0 <= c < |s.conns| :: ConnWireOk(s.conns[c]))
    && (forall call | call in s.sends :: SendWireOk(s, call))
  }

  /** k' has k's wire, and is closed if k is. */
  predicate SameWire(k: Conn, k': Conn) {
    && k'.wire == k.wire
    && k'.writing == k.writing && (k.closed ==> k'.closed)
  }

  /** A step that moves no byte and neither starts nor ends a write loop. */
  lemma NothingWritten(s: State, s': State)
    requires Wires(s) && AcceptWireOk(s')
    requires |s'.conns| == |s.conns|
    requires forall c | 0 <= c < |s.conns| :: ConnWireOk(s.conns[c]) ==> SameWire(s.conns[c], s'.conns[c]) && ConnWireOk(s'.conns[c])
    requires forall call | call in s'.sends :: (call in s.sends && s.sends[call] == s'.sends[call]) || Unwritten(s', s'.sends[call])
    ensures Wires(s')
  {
    forall call | call in s'.sends ensures SendWireOk(s', call) {
      assert call in s.sends ==> SendWireOk(s, call);
      match s'.sends[call]
      case Copied(_, _) =>
      case Locked(c, _) => assert SameWire(s.conns[c], s'.conns[c]);
      case Checked(c, _) => assert SameWire(s.conns[c], s'.conns[c]);
      case Writing(c, _) => assert SameWire(s.conns[c], s'.conns[c]);
      case SendDone(ok, _, slot) => assert ok ==> SameWire(s.conns[slot.value.conn], s'.conns[slot.value.conn]);
    }
  }

  predicate Unwritten(s: State, pc: SendPc) {
    || pc.Copied?
    || ((pc.Locked? || pc.Checked?) && At(s, pc.c) && !s.conns[pc.c].writing)
    || (pc.SendDone? && !pc.ok)
  }

  lemma StartWritesNothing(s: State)
    requires Control(s) && Wires(s) && DoStart(s).Some?
    ensures Wires(DoStart(s).value)
  {
    NothingWritten(s, DoStart(s).value);
  }

  lemma AcceptCheckWritesNothing(s: State)
    requires Control(s) && Wires(s) && DoAcceptCheck(s).Some?
    ensures Wires(DoAcceptCheck(s).value)
  {
    NothingWritten(s, DoAcceptCheck(s).value);
  }

  lemma AcceptAgainWritesNothing(s: State)
    requires Control(s) && Wires(s) && DoAcceptAgain(s).Some?
    ensures Wires(DoAcceptAgain(s).value)
  {
    NothingWritten(s, DoAcceptAgain(s).value);
  }

  lemma AcceptFailedWritesNothing(s: State)
    requires Control(s) && Wires(s) && DoAcceptFailed(s).Some?
    ensures Wires(DoAcceptFailed(s).value)
  {
    NothingWritten(s, DoAcceptFailed(s).value);
  }

  lemma HelloReceivedWritesNothing(s: State)
    requires Control(s) && Wires(s) && DoHelloReceived(s).Some?
    ensures Wires(DoHelloReceived(s).value)
  {
    NothingWritten(s, DoHelloReceived(s).value);
  }

  lemma EstablishFailsWritesNothing(s: State)
    requires Control(s) && Wires(s) && DoEstablishFails(s).Some?
    ensures Wires(DoEstablishFails(s).value)
  {
    NothingWritten(s, DoEstablishFails(s).value);
  }

  lemma PublishWritesNothing(s: State)
    requires Control(s) && Wires(s) && DoPublish(s).Some?
    ensures Wires(DoPublish(s).value)
  {
    NothingWritten(s, DoPublish(s).value);
  }

  lemma RunGuardWritesNothing(s: State)
    requires Control(s) && Wires(s) && DoRunGuard(s).Some?
    ensures Wires(DoRunGuard(s).value)
  {
    NothingWritten(s, DoRunGuard(s).value);
  }

  lemma ReadFailsWritesNothing(s: State)
    requires Control(s) && Wires(s) && DoReadFails(s).Some?
    ensures Wires(DoReadFails(s).value)
  {
    NothingWritten(s, DoReadFails(s).value);
  }

  lemma MarkFailedWritesNothing(s: State)
    requires Control(s) && Wires(s) && DoMarkFailed(s).Some?
    ensures Wires(DoMarkFailed(s).value)
  {
    NothingWritten(s, DoMarkFailed(s).value);
  }

  lemma ReceivedWritesNothing(s: State, e: Envelope)
    requires Control(s) && Wires(s) && DoReceived(s, e).Some?
    ensures Wires(DoReceived(s, e).value)
  {
    NothingWritten(s, DoReceived(s, e).value);
  }

  lemma HandlerAnswersWritesNothing(s: State, ok: bool)
    requires Control(s) && Wires(s) && DoHandlerAnswers(s, ok).Some?
    ensures Wires(DoHandlerAnswers(s, ok).value)
  {
    NothingWritten(s, DoHandlerAnswers(s, ok).value);
  }

  lemma AckBeginWritesNothing(s: State, call: nat)
    requires Control(s) && Wires(s) && DoAckBegin(s, call).Some?
    ensures Wires(DoAckBegin(s, call).value)
  {
    NothingWritten(s, DoAckBegin(s, call).value);
  }

  lemma AckEndWritesNothing(s: State)
    requires Control(s) && Wires(s) && DoAckEnd(s).Some?
    ensures Wires(DoAckEnd(s).value)
  {
    NothingWritten(s, DoAckEnd(s).value);
  }

  lemma EndLockWritesNothing(s: State)
    requires Control(s) && Wires(s) && DoEndLock(s).Some?
    ensures Wires(DoEndLock(s).value)
  {
    NothingWritten(s, DoEndLock(s).value);
  }

  lemma EndCloseWritesNothing(s: State)
    requires Control(s) && Wires(s) && DoEndClose(s).Some?
    ensures Wires(DoEndClose(s).value)
  {
    NothingWritten(s, DoEndClose(s).value);
  }

  lemma EndClearWritesNothing(s: State)
    requires Control(s) && Wires(s) && DoEndClear(s).Some?
    ensures Wires(DoEndClear(s).value)
  {
    NothingWritten(s, DoEndClear(s).value);
  }

  lemma ReleaseWritesNothing(s: State)
    requires Control(s) && Wires(s) && DoRelease(s).Some?
    ensures Wires(DoRelease(s).value)
  {
    NothingWritten(s, DoRelease(s).value);
  }

  lemma SendBeginWritesNothing(s: State, call: nat, e: Envelope)
    requires Control(s) && Wires(s) && DoSendBegin(s, call, e).Some?
    ensures Wires(DoSendBegin(s, call, e).value)
  {
    NothingWritten(s, DoSendBegin(s, call, e).value);
  }

  lemma SendWithoutPeerWritesNothing(s: State, call: nat)
    requires Wires(s) && call in s.sends && s.sends[call].Copied?
    ensures Wires(Finish(s, call, false, s.sends[call].e, None))
  {
    NothingWritten(s, Finish(s, call, false, s.sends[call].e, None));
  }

  lemma SendLockWritesNothing(s: State, call: nat)
    requires Control(s) && Wires(s) && DoSendLock(s, call).Some?
    ensures Wires(DoSendLock(s, call).value)
  {
    match s.sends[call].peer
    case None => SendWithoutPeerWritesNothing(s, call);
    case Some(c) =>
      var e := s.sends[call].e;
      assert SendOk(s, call) && ConnWireOk(s.conns[c]);
      NothingWritten(s, With(s, c, s.conns[c].(holder := Sender(call))).(sends := s.sends[call := Locked(c, e)]));
  }

  lemma SendCheckWritesNothing(s: State, call: nat)
    requires Control(s) && Wires(s) && DoSendCheck(s, call).Some?
    ensures Wires(DoSendCheck(s, call).value)
  {
    var Locked(c, e) := s.sends[call];
    assert SendWireOk(s, call) && ConnWireOk(s.conns[c]);
    if s.conns[c].established {
      NothingWritten(s, s.(sends := s.sends[call := Checked(c, e)]));
    } else {
      NothingWritten(s, Finish(With(s, c, s.conns[c].(holder := Free)), call, false, e, None));
    }
  }

  lemma StopBeginWritesNothing(s: State, call: nat)
    requires Control(s) && Wires(s) && DoStopBegin(s, call).Some?
    ensures Wires(DoStopBegin(s, call).value)
  {
    NothingWritten(s, DoStopBegin(s, call).value);
  }

  lemma StopWithoutPeerWritesNothing(s: State, call: nat)
    requires Wires(s) && call in s.stops && s.stops[call].StopCopied?
    ensures Wires(StopAt(s, call, PeerStopped))
  {
    NothingWritten(s, StopAt(s, call, PeerStopped));
  }

  lemma StopTakesMutexWritesNothing(s: State, c: nat, call: nat)
    requires Control(s) && Wires(s) && At(s, c) && s.conns[c].published && s.conns[c].holder.Free?
    requires call in s.stops && s.stops[call].StopCopied?
    ensures Wires(StopAt(With(s, c, s.conns[c].(holder := Stopper(call), established := false, ended := true)), call, StopLocked(c)))
  {
    assert ConnWireOk(s.conns[c]);
    NothingWritten(s, StopAt(With(s, c, s.conns[c].(holder := Stopper(call), established := false, ended := true)), call, StopLocked(c)));
  }

  lemma StopLockWritesNothing(s: State, call: nat)
    requires Control(s) && Wires(s) && DoStopLock(s, call).Some?
    ensures Wires(DoStopLock(s, call).value)
  {
    assert StopOk(s, call);
    match s.stops[call].peer
    case None => StopWithoutPeerWritesNothing(s, call);
    case Some(c) => StopTakesMutexWritesNothing(s, c, call);
  }

  lemma StopCloseWritesNothing(s: State, call: nat)
    requires Control(s) && Wires(s) && DoStopClose(s, call).Some?
    ensures Wires(DoStopClose(s, call).value)
  {
    NothingWritten(s, DoStopClose(s, call).value);
  }

  lemma StopExchangeWritesNothing(s: State, call: nat)
    requires Control(s) && Wires(s) && DoStopExchange(s, call).Some?
    ensures Wires(DoStopExchange(s, call).value)
  {
    NothingWritten(s, DoStopExchange(s, call).value);
  }

  lemma StopJoinWritesNothing(s: State, call: nat)
    requires Control(s) && Wires(s) && DoStopJoin(s, call).Some?
    ensures Wires(DoStopJoin(s, call).value)
  {
    NothingWritten(s, DoStopJoin(s, call).value);
  }

  lemma StopResetWritesNothing(s: State, call: nat)
    requires Control(s) && Wires(s) && DoStopReset(s, call).Some?
    ensures Wires(DoStopReset(s, call).value)
  {
    NothingWritten(s, DoStopReset(s, call).value);
  }

  lemma StopClearWritesNothing(s: State, call: nat)
    requires Control(s) && Wires(s) && DoStopClear(s, call).Some?
    ensures Wires(DoStopClear(s, call).value)
  {
    NothingWritten(s, DoStopClear(s, call).value);
  }

  lemma AcceptedWiresOk(s: State)
    requires Control(s) && Wires(s) && DoAccepted(s).Some?
    ensures Wires(DoAccepted(s).value)
  {
    var s' := DoAccepted(s).value;
    forall call | call in s'.sends ensures SendWireOk(s', call) {
      assert SendWireOk(s, call);
    }
  }

  /** A step of the one thread that may write on c: everyone else's connections and calls stand. */
  lemma OneWriter(s: State, s': State, c: nat)
    requires Wires(s) && AcceptWireOk(s') && At(s, c)
    requires |s'.conns| == |s.conns| && (forall d | 0 <= d < |s.conns| && d != c :: s'.conns[d] == s.conns[d])
    requires ConnWireOk(s'.conns[c])
    requires Extends(s.conns[c].wire, s'.conns[c].wire)
    requires forall call | call in s'.sends ::
      (call in s.sends && s.sends[call] == s'.sends[call] && !Holds(s.sends[call], c)) || SendWireOk(s', call)
    ensures Wires(s')
  {
    forall call | call in s'.sends ensures SendWireOk(s', call) {
      assert call in s.sends ==> SendWireOk(s, call);
    }
  }

  /** More may have been committed, and whatever was all out is still all out. */
  predicate Extends(w: Wire, w': Wire) {
    && w.committed <= w'.committed && w.owners <= w'.owners
    && |w'.committed| == |w'.owners|
    && (w'.committed == w.committed && AllOut(w) ==> AllOut(w'))
  }

  lemma NoOneElse(s: State, c: nat, call: nat)
    requires Control(s) && At(s, c)
    requires s.conns[c].holder == Free || s.conns[c].holder == Sender(call)
    ensures forall other | other in s.sends && other != call :: !Holds(s.sends[other], c)
    ensures s.conns[c].holder == Free && call in s.sends ==> !Holds(s.sends[call], c)
  {
    forall other | other in s.sends && (other != call || s.conns[c].holder == Free) ensures !Holds(s.sends[other], c) {
      assert SendOk(s, other);
    }
  }

  /** A step of the send call that holds c's write mutex, or that has just let it go. */
  lemma WriterMoves(s: State, c: nat, k: Conn, call: nat, pc: SendPc)
    requires Control(s) && Wires(s) && call in s.sends && Holds(s.sends[call], c)
    requires At(s, c) && ConnWireOk(k) && Extends(s.conns[c].wire, k.wire)
    requires SendWireOk(With(s, c, k).(sends := s.sends[call := pc]), call)
    ensures Wires(With(s, c, k).(sends := s.sends[call := pc]))
  {
    assert SendOk(s, call);
    NoOneElse(s, c, call);
    OneWriter(s, With(s, c, k).(sends := s.sends[call := pc]), c);
  }

  lemma HandshakeDoneWiresOk(s: State)
    requires Control(s) && Wires(s) && DoHandshakeDone(s).Some?
    ensures Wires(DoHandshakeDone(s).value)
  {
    NoOneElse(s, s.accept.c, 0);
    OneWriter(s, DoHandshakeDone(s).value, s.accept.c);
  }

  lemma HelloWriteWiresOk(s: State, io: Io)
    requires Control(s) && Wires(s) && DoHelloWrite(s, io).Some?
    ensures Wires(DoHelloWrite(s, io).value)
  {
    NoOneElse(s, s.accept.c, 0);
    OneWriter(s, DoHelloWrite(s, io).value, s.accept.c);
  }

  lemma SendEncodeWiresOk(s: State, call: nat)
    requires Control(s) && Wires(s) && DoSendEncode(s, call).Some?
    ensures Wires(DoSendEncode(s, call).value)
  {
    var Checked(c, e) := s.sends[call];
    assert SendWireOk(s, call) && ConnWireOk(s.conns[c]) && SendOk(s, call);
    var k := Encoded(s.conns[c], call, e);
    WriterMoves(s, c, k, call, if k.holder.Free? then SendDone(false, e, None) else Writing(c, e));
  }

  lemma SendWriteWiresOk(s: State, call: nat, io: Io)
    requires Control(s) && Wires(s) && DoSendWrite(s, call, io).Some?
    ensures Wires(DoSendWrite(s, call, io).value)
  {
    var Writing(c, e) := s.sends[call];
    assert SendWireOk(s, call) && ConnWireOk(s.conns[c]);
    var k := Written(s.conns[c], io);
    WriterMoves(s, c, k, call, if k.holder.Free? then SendDone(AllOut(k.wire), e, Some(Slot(c, |k.wire.committed| - 1))) else Writing(c, e));
  }

  lemma AcceptStepKeepsWires(s: State, step: Step)
    requires Control(s) && Wires(s) && Do(s, step).Some? && !SendStep(step) && !StopStep(step)
    ensures Wires(Do(s, step).value)
  {
    match step
    case Start => StartWritesNothing(s);
    case AcceptCheck => AcceptCheckWritesNothing(s);
    case AcceptAgain => AcceptAgainWritesNothing(s);
    case AcceptFailed => AcceptFailedWritesNothing(s);
    case Accepted => AcceptedWiresOk(s);
    case HandshakeDone => HandshakeDoneWiresOk(s);
    case HelloWrite(io) => HelloWriteWiresOk(s, io);
    case HelloReceived => HelloReceivedWritesNothing(s);
    case EstablishFails => EstablishFailsWritesNothing(s);
    case Publish => PublishWritesNothing(s);
    case RunGuard => RunGuardWritesNothing(s);
    case ReadFails => ReadFailsWritesNothing(s);
    case MarkFailed => MarkFailedWritesNothing(s);
    case Received(e) => ReceivedWritesNothing(s, e);
    case HandlerAnswers(ok) => HandlerAnswersWritesNothing(s, ok);
    case AckBegin(call) => AckBeginWritesNothing(s, call);
    case AckEnd => AckEndWritesNothing(s);
    case EndLock => EndLockWritesNothing(s);
    case EndClose => EndCloseWritesNothing(s);
    case EndClear => EndClearWritesNothing(s);
    case Release => ReleaseWritesNothing(s);
  }

  lemma MutexStepKeepsWires(s: State, step: Step)
    requires Control(s) && Wires(s) && Do(s, step).Some? && MutexStep(step)
    ensures Wires(Do(s, step).value)
  {
    if step.SendBegin? {
      SendBeginWritesNothing(s, step.call, step.e);
    } else if step.SendLock? {
      SendLockWritesNothing(s, step.call);
    } else {
      SendCheckWritesNothing(s, step.call);
    }
  }

  lemma SendStepKeepsWires(s: State, step: Step)
    requires Control(s) && Wires(s) && Do(s, step).Some? && SendStep(step)
    ensures Wires(Do(s, step).value)
  {
    if step.SendEncode? {
      SendEncodeWiresOk(s, step.call);
    } else if step.SendWrite? {
      SendWriteWiresOk(s, step.call, step.io);
    } else {
      MutexStepKeepsWires(s, step);
    }
  }

  lemma StopStepKeepsWires(s: State, step: Step)
    requires Control(s) && Wires(s) && Do(s, step).Some? && StopStep(step)
    ensures Wires(Do(s, step).value)
  {
    match step
    case StopBegin(call) => StopBeginWritesNothing(s, call);
    case StopLock(call) => StopLockWritesNothing(s, call);
    case StopClose(call) => StopCloseWritesNothing(s, call);
    case StopExchange(call) => StopExchangeWritesNothing(s, call);
    case StopJoin(call) => StopJoinWritesNothing(s, call);
    case StopReset(call) => StopResetWritesNothing(s, call);
    case StopClear(call) => StopClearWritesNothing(s, call);
  }

  lemma EveryStepKeepsWires(s: State, step: Step)
    requires Control(s) && Wires(s) && Do(s, step).Some?
    ensures Wires(Do(s, step).value)
  {
    if SendStep(step) {
      SendStepKeepsWires(s, step);
    } else if StopStep(step) {
      StopStepKeepsWires(s, step);
    } else {
      AcceptStepKeepsWires(s, step);
    }
  }
}

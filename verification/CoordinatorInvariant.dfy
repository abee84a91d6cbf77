/** Who holds what: the control half of what every step of the coordinator's threads keeps. */
module CoordinatorInvariant {
  import opened Wrappers
  import opened Protocol
  import opened TlsStream
  import opened Heartbeats
  import opened CoordinatorRuns

  /** The call is inside its critical section on c's write mutex. */
  predicate Holds(pc: SendPc, c: nat) {
    (pc.Locked? || pc.Checked? || pc.Writing?) && pc.c == c
  }

  predicate HolderOk(s: State, c: nat)
    requires At(s, c)
  {
    match s.conns[c].holder
    case Free => true
    case Sender(k) => k in s.sends && Holds(s.sends[k], c)
    case Stopper(k) => k in s.stops && s.stops[k] == StopLocked(c)
    case Handler => s.accept.EndLocked? && s.accept.c == c
  }

  predicate ConnOk(s: State, c: nat)
    requires At(s, c)
  {
    var k := s.conns[c];
    && HolderOk(s, c)
    && (k.established ==> !k.ended)
    && (k.released ==> k.ended)
    && (!k.holder.Free? ==> k.published)
    && (k.published ==> k.greeted)
    && (!k.released ==> Current(s.accept) == Some(c))
  }

  predicate Published(s: State, c: nat) {
    At(s, c) && s.conns[c].published
  }

  predicate SendOk(s: State, call: nat)
    requires call in s.sends
  {
    match s.sends[call]
    case Copied(peer, _) => peer.Some? ==> Published(s, peer.value)
    case Locked(c, _) => Published(s, c) && s.conns[c].holder == Sender(call)
    case Checked(c, _) => Published(s, c) && s.conns[c].holder == Sender(call) && !s.conns[c].ended
    case Writing(c, _) => Published(s, c) && s.conns[c].holder == Sender(call) && !s.conns[c].ended
    case SendDone(_, _, _) => true
  }

  predicate Quiet(s: State) {
    !s.running && s.accept.Exited?
  }

  /** A stop that won an epoch leaves it quiet once the accept thread is joined. */
  predicate WonOk(s: State, won: Option<nat>) {
    won.Some? ==> won.value <= s.epoch && (won.value == s.epoch ==> Quiet(s))
  }

  predicate StopOk(s: State, call: nat)
    requires call in s.stops
  {
    match s.stops[call]
    case StopCopied(peer) => peer.Some? ==> Published(s, peer.value)
    case StopLocked(c) => Published(s, c) && s.conns[c].holder == Stopper(call) && s.conns[c].ended
    case PeerStopped => true
    case Joining(epoch) => epoch <= s.epoch && (epoch == s.epoch ==> !s.running)
    case Joined(epoch) => WonOk(s, Some(epoch))
    case ClearingAll(won) => WonOk(s, won)
    case StopDone(won) => WonOk(s, won)
  }

  /** A connection only its own handler knows of. */
  predicate Fresh(s: State, c: nat) {
    At(s, c) && s.conns[c].holder.Free? && !s.conns[c].published && !s.conns[c].ended && !s.conns[c].closed
  }

  predicate AcceptOk(s: State) {
    && (Current(s.accept).Some? ==> At(s, Current(s.accept).value) && !s.conns[Current(s.accept).value].released)
    && (!s.accept.Exited? ==> s.joinable)
    && match s.accept
       case Establishing(c) => Fresh(s, c) && !s.conns[c].established
       case Helloing(c) => Fresh(s, c) && !s.conns[c].established
       case AwaitHello(c) => Fresh(s, c) && !s.conns[c].established
       case Publishing(c) => Fresh(s, c) && s.conns[c].established && s.conns[c].greeted
       case EndLocked(c, _) => Published(s, c) && s.conns[c].holder.Handler? && s.conns[c].ended
       case Clearing(c) => Published(s, c) && s.conns[c].ended
       case Releasing(c) => s.conns[c].ended
       case a => Current(a).Some? ==> Published(s, Current(a).value)
  }

  predicate ActiveStage(a: AcceptPc) {
    a.Running? || a.Reading? || a.Handling? || a.Marking? || a.Acking? || a.Ending? || a.EndLocked? || a.Clearing?
  }

  predicate ActiveOk(s: State) {
    && s.activeSocket == s.activeStream == s.activePeer
    && (s.activePeer.Some? ==> Current(s.accept) == s.activePeer && ActiveStage(s.accept))
  }

  predicate ConnsOk(s: State) {
    forall c | 0 <= c < |s.conns| :: ConnOk(s, c)
  }

  predicate SendsOk(s: State) {
    forall call | call in s.sends :: SendOk(s, call)
  }

  predicate StopsOk(s: State) {
    forall call | call in s.stops :: StopOk(s, call)
  }

  predicate Control(s: State) {
    AcceptOk(s) && ActiveOk(s) && ConnsOk(s) && SendsOk(s) && StopsOk(s)
  }

  /** The invariant goes from s to s' if each connection's and each call's share of it does. */
  lemma Lift(s: State, s': State)
    requires Control(s) && AcceptOk(s') && ActiveOk(s')
    requires forall c | 0 <= c < |s'.conns| :: (c < |s.conns| ==> ConnOk(s, c)) ==> ConnOk(s', c)
    requires forall call | call in s'.sends :: (call in s.sends ==> SendOk(s, call)) ==> SendOk(s', call)
    requires forall call | call in s'.stops :: (call in s.stops ==> StopOk(s, call)) ==> StopOk(s', call)
    ensures Control(s')
  {
    forall c | 0 <= c < |s'.conns| ensures ConnOk(s', c) {
      assert c < |s.conns| ==> ConnOk(s, c);
    }
    forall call | call in s'.sends ensures SendOk(s', call) {
      assert call in s.sends ==> SendOk(s, call);
    }
    forall call | call in s'.stops ensures StopOk(s', call) {
      assert call in s.stops ==> StopOk(s, call);
    }
  }

  /** Only the write mutex and the bytes of a published connection may differ between k and k'. */
  predicate SameLife(k: Conn, k': Conn) {
    k'.published && k.published && k'.greeted == k.greeted && k'.established == k.established && k'.ended == k.ended && k'.released == k.released
  }

  /** A step of one send call on a connection whose write mutex no one else has. */
  lemma SendMoves(s: State, c: nat, k: Conn, call: nat, pc: SendPc)
    requires Control(s) && At(s, c) && SameLife(s.conns[c], k)
    requires call in s.sends && (s.sends[call].Copied? || Holds(s.sends[call], c))
    requires s.conns[c].holder == Free || s.conns[c].holder == Sender(call)
    requires k.holder == Free || (k.holder == Sender(call) && Holds(pc, c))
    requires SendOk(With(s, c, k).(sends := s.sends[call := pc]), call)
    ensures Control(With(s, c, k).(sends := s.sends[call := pc]))
  {
    var s' := With(s, c, k).(sends := s.sends[call := pc]);
    assert ConnOk(s, c);
    forall d | 0 <= d < |s'.conns| ensures ConnOk(s', d) {
      assert ConnOk(s, d);
    }
    forall other | other in s'.sends ensures SendOk(s', other) {
      assert other != call ==> SendOk(s, other);
    }
    forall other | other in s'.stops ensures StopOk(s', other) {
      assert StopOk(s, other);
    }
  }

  /** A step of the handler on a connection that only it knows of. */
  lemma HandlerMoves(s: State, k: Conn, a: AcceptPc)
    requires Control(s) && s.accept.Helloing? && Current(a) == Some(s.accept.c)
    requires k.holder.Free? && !k.published && !k.established && !k.released
    requires AcceptOk(With(s, s.accept.c, k).(accept := a))
    ensures Control(With(s, s.accept.c, k).(accept := a))
  {
    var s' := With(s, s.accept.c, k).(accept := a);
    forall c | 0 <= c < |s'.conns| ensures ConnOk(s', c) {
      assert ConnOk(s, c);
    }
    forall call | call in s'.sends ensures SendOk(s', call) {
      assert SendOk(s, call);
    }
    forall call | call in s'.stops ensures StopOk(s', call) {
      assert StopOk(s, call);
    }
  }

  lemma SendWithoutPeer(s: State, call: nat)
    requires Control(s) && call in s.sends && s.sends[call].Copied?
    ensures Control(Finish(s, call, false, s.sends[call].e, None))
  {
    Lift(s, Finish(s, call, false, s.sends[call].e, None));
  }

  lemma StopWithoutPeer(s: State, call: nat)
    requires Control(s) && call in s.stops && s.stops[call].StopCopied?
    ensures Control(StopAt(s, call, PeerStopped))
  {
    Lift(s, StopAt(s, call, PeerStopped));
  }

  /** stop() takes a free write mutex: no send is past its check, and none gets past it any more. */
  lemma StopTakesMutex(s: State, c: nat, call: nat)
    requires Control(s) && At(s, c) && s.conns[c].published && s.conns[c].holder.Free?
    requires call in s.stops && s.stops[call].StopCopied?
    ensures Control(StopAt(With(s, c, s.conns[c].(holder := Stopper(call), established := false, ended := true)), call, StopLocked(c)))
  {
    var s' := StopAt(With(s, c, s.conns[c].(holder := Stopper(call), established := false, ended := true)), call, StopLocked(c));
    assert ConnOk(s, c);
    forall d | 0 <= d < |s'.conns| ensures ConnOk(s', d) {
      assert ConnOk(s, d);
    }
    forall other | other in s'.sends ensures SendOk(s', other) {
      assert SendOk(s, other);
    }
    forall other | other in s'.stops ensures StopOk(s', other) {
      assert other != call ==> StopOk(s, other);
    }
  }

  lemma StartKeeps(s: State)
    requires Control(s) && DoStart(s).Some?
    ensures Control(DoStart(s).value)
  {
    Lift(s, DoStart(s).value);
  }

  lemma AcceptCheckKeeps(s: State)
    requires Control(s) && DoAcceptCheck(s).Some?
    ensures Control(DoAcceptCheck(s).value)
  {
    Lift(s, DoAcceptCheck(s).value);
  }

  lemma AcceptAgainKeeps(s: State)
    requires Control(s) && DoAcceptAgain(s).Some?
    ensures Control(DoAcceptAgain(s).value)
  {
    Lift(s, DoAcceptAgain(s).value);
  }

  lemma AcceptFailedKeeps(s: State)
    requires Control(s) && DoAcceptFailed(s).Some?
    ensures Control(DoAcceptFailed(s).value)
  {
    Lift(s, DoAcceptFailed(s).value);
  }

  lemma AcceptedKeeps(s: State)
    requires Control(s) && DoAccepted(s).Some?
    ensures Control(DoAccepted(s).value)
  {
    Lift(s, DoAccepted(s).value);
  }

  lemma HandshakeDoneKeeps(s: State)
    requires Control(s) && DoHandshakeDone(s).Some?
    ensures Control(DoHandshakeDone(s).value)
  {
    Lift(s, DoHandshakeDone(s).value);
  }

  lemma HelloWriteKeeps(s: State, io: Io)
    requires Control(s) && DoHelloWrite(s, io).Some?
    ensures Control(DoHelloWrite(s, io).value)
  {
    var c := s.accept.c;
    var k := HelloWritten(s.conns[c], io);
    HandlerMoves(s, k, if io.Failed? then Releasing(c) else if AllOut(k.wire) then AwaitHello(c) else Helloing(c));
  }

  lemma HelloReceivedKeeps(s: State)
    requires Control(s) && DoHelloReceived(s).Some?
    ensures Control(DoHelloReceived(s).value)
  {
    Lift(s, DoHelloReceived(s).value);
  }

  lemma EstablishFailsKeeps(s: State)
    requires Control(s) && DoEstablishFails(s).Some?
    ensures Control(DoEstablishFails(s).value)
  {
    Lift(s, DoEstablishFails(s).value);
  }

  lemma PublishKeeps(s: State)
    requires Control(s) && DoPublish(s).Some?
    ensures Control(DoPublish(s).value)
  {
    Lift(s, DoPublish(s).value);
  }

  lemma RunGuardKeeps(s: State)
    requires Control(s) && DoRunGuard(s).Some?
    ensures Control(DoRunGuard(s).value)
  {
    Lift(s, DoRunGuard(s).value);
  }

  lemma ReadFailsKeeps(s: State)
    requires Control(s) && DoReadFails(s).Some?
    ensures Control(DoReadFails(s).value)
  {
    Lift(s, DoReadFails(s).value);
  }

  lemma MarkFailedKeeps(s: State)
    requires Control(s) && DoMarkFailed(s).Some?
    ensures Control(DoMarkFailed(s).value)
  {
    Lift(s, DoMarkFailed(s).value);
  }

  lemma ReceivedKeeps(s: State, e: Envelope)
    requires Control(s) && DoReceived(s, e).Some?
    ensures Control(DoReceived(s, e).value)
  {
    Lift(s, DoReceived(s, e).value);
  }

  lemma HandlerAnswersKeeps(s: State, ok: bool)
    requires Control(s) && DoHandlerAnswers(s, ok).Some?
    ensures Control(DoHandlerAnswers(s, ok).value)
  {
    AnsweredKeeps(s, s.accept.c, ok && !CloseRequest(s.accept.e));
  }

  lemma AnsweredKeeps(s: State, c: nat, ok: bool)
    requires Control(s) && (s.accept.Handling? || s.accept.Acking?) && s.accept.c == c && At(s, c)
    ensures Control(Answered(s, c, ok))
  {
    Lift(s, Answered(s, c, ok));
  }

  lemma AckBeginKeeps(s: State, call: nat)
    requires Control(s) && DoAckBegin(s, call).Some?
    ensures Control(DoAckBegin(s, call).value)
  {
    Lift(s, DoAckBegin(s, call).value);
  }

  lemma AckEndKeeps(s: State)
    requires Control(s) && DoAckEnd(s).Some?
    ensures Control(DoAckEnd(s).value)
  {
    AnsweredKeeps(s, s.accept.c, s.sends[s.accept.call].ok);
  }

  lemma EndLockKeeps(s: State)
    requires Control(s) && DoEndLock(s).Some?
    ensures Control(DoEndLock(s).value)
  {
    Lift(s, DoEndLock(s).value);
  }

  lemma EndCloseKeeps(s: State)
    requires Control(s) && DoEndClose(s).Some?
    ensures Control(DoEndClose(s).value)
  {
    Lift(s, DoEndClose(s).value);
  }

  lemma EndClearKeeps(s: State)
    requires Control(s) && DoEndClear(s).Some?
    ensures Control(DoEndClear(s).value)
  {
    assert ConnOk(s, s.accept.c);
    if s.activePeer == Some(s.accept.c) {
      Lift(s, s.(accept := Releasing(s.accept.c), activePeer := None, activeStream := None, activeSocket := None));
    } else {
      Lift(s, s.(accept := Releasing(s.accept.c)));
    }
  }

  lemma ReleaseKeeps(s: State)
    requires Control(s) && DoRelease(s).Some?
    ensures Control(DoRelease(s).value)
  {
    Lift(s, DoRelease(s).value);
  }

  lemma SendBeginKeeps(s: State, call: nat, e: Envelope)
    requires Control(s) && DoSendBegin(s, call, e).Some?
    ensures Control(DoSendBegin(s, call, e).value)
  {
    Lift(s, DoSendBegin(s, call, e).value);
  }

  lemma SendLockKeeps(s: State, call: nat)
    requires Control(s) && DoSendLock(s, call).Some?
    ensures Control(DoSendLock(s, call).value)
  {
    assert SendOk(s, call);
    match s.sends[call].peer
    case None => SendWithoutPeer(s, call);
    case Some(c) =>
      var e := s.sends[call].e;
      SendMoves(s, c, s.conns[c].(holder := Sender(call)), call, Locked(c, e));
  }

  lemma SendCheckKeeps(s: State, call: nat)
    requires Control(s) && DoSendCheck(s, call).Some?
    ensures Control(DoSendCheck(s, call).value)
  {
    var Locked(c, e) := s.sends[call];
    assert SendOk(s, call) && ConnOk(s, c);
    if s.conns[c].established {
      SendMoves(s, c, s.conns[c], call, Checked(c, e));
      assert With(s, c, s.conns[c]) == s;
    } else {
      SendMoves(s, c, s.conns[c].(holder := Free), call, SendDone(false, e, None));
    }
  }

  lemma SendEncodeKeeps(s: State, call: nat)
    requires Control(s) && DoSendEncode(s, call).Some?
    ensures Control(DoSendEncode(s, call).value)
  {
    var Checked(c, e) := s.sends[call];
    assert SendOk(s, call);
    var k := Encoded(s.conns[c], call, e);
    SendMoves(s, c, k, call, if k.holder.Free? then SendDone(false, e, None) else Writing(c, e));
  }

  lemma SendWriteKeeps(s: State, call: nat, io: Io)
    requires Control(s) && DoSendWrite(s, call, io).Some?
    ensures Control(DoSendWrite(s, call, io).value)
  {
    var Writing(c, e) := s.sends[call];
    assert SendOk(s, call);
    var k := Written(s.conns[c], io);
    SendMoves(s, c, k, call, if k.holder.Free? then SendDone(AllOut(k.wire), e, Some(Slot(c, |k.wire.committed| - 1))) else Writing(c, e));
  }

  lemma StopBeginKeeps(s: State, call: nat)
    requires Control(s) && DoStopBegin(s, call).Some?
    ensures Control(DoStopBegin(s, call).value)
  {
    Lift(s, DoStopBegin(s, call).value);
  }

  lemma StopLockKeeps(s: State, call: nat)
    requires Control(s) && DoStopLock(s, call).Some?
    ensures Control(DoStopLock(s, call).value)
  {
    assert StopOk(s, call);
    match s.stops[call].peer
    case None => StopWithoutPeer(s, call);
    case Some(c) => StopTakesMutex(s, c, call);
  }

  lemma StopCloseKeeps(s: State, call: nat)
    requires Control(s) && DoStopClose(s, call).Some?
    ensures Control(DoStopClose(s, call).value)
  {
    assert StopOk(s, call);
    Lift(s, DoStopClose(s, call).value);
  }

  lemma StopExchangeKeeps(s: State, call: nat)
    requires Control(s) && DoStopExchange(s, call).Some?
    ensures Control(DoStopExchange(s, call).value)
  {
    if s.running {
      Lift(s, StopAt(s.(running := false), call, Joining(s.epoch)));
    } else {
      Lift(s, StopAt(s, call, ClearingAll(None)));
    }
  }

  lemma StopJoinKeeps(s: State, call: nat)
    requires Control(s) && DoStopJoin(s, call).Some?
    ensures Control(DoStopJoin(s, call).value)
  {
    Lift(s, DoStopJoin(s, call).value);
  }

  lemma StopResetKeeps(s: State, call: nat)
    requires Control(s) && DoStopReset(s, call).Some?
    ensures Control(DoStopReset(s, call).value)
  {
    Lift(s, DoStopReset(s, call).value);
  }

  lemma StopClearKeeps(s: State, call: nat)
    requires Control(s) && DoStopClear(s, call).Some?
    ensures Control(DoStopClear(s, call).value)
  {
    Lift(s, DoStopClear(s, call).value);
  }

  lemma AcceptStepKeepsControl(s: State, step: Step)
    requires Control(s) && Do(s, step).Some? && !SendStep(step) && !StopStep(step)
    ensures Control(Do(s, step).value)
  {
    match step
    case Start => StartKeeps(s);
    case AcceptCheck => AcceptCheckKeeps(s);
    case AcceptAgain => AcceptAgainKeeps(s);
    case AcceptFailed => AcceptFailedKeeps(s);
    case Accepted => AcceptedKeeps(s);
    case HandshakeDone => HandshakeDoneKeeps(s);
    case HelloWrite(io) => HelloWriteKeeps(s, io);
    case HelloReceived => HelloReceivedKeeps(s);
    case EstablishFails => EstablishFailsKeeps(s);
    case Publish => PublishKeeps(s);
    case RunGuard => RunGuardKeeps(s);
    case ReadFails => ReadFailsKeeps(s);
    case MarkFailed => MarkFailedKeeps(s);
    case Received(e) => ReceivedKeeps(s, e);
    case HandlerAnswers(ok) => HandlerAnswersKeeps(s, ok);
    case AckBegin(call) => AckBeginKeeps(s, call);
    case AckEnd => AckEndKeeps(s);
    case EndLock => EndLockKeeps(s);
    case EndClose => EndCloseKeeps(s);
    case EndClear => EndClearKeeps(s);
    case Release => ReleaseKeeps(s);
  }

  lemma MutexStepKeepsControl(s: State, step: Step)
    requires Control(s) && Do(s, step).Some? && MutexStep(step)
    ensures Control(Do(s, step).value)
  {
    if step.SendBegin? {
      SendBeginKeeps(s, step.call, step.e);
    } else if step.SendLock? {
      SendLockKeeps(s, step.call);
    } else {
      SendCheckKeeps(s, step.call);
    }
  }

  lemma SendStepKeepsControl(s: State, step: Step)
    requires Control(s) && Do(s, step).Some? && SendStep(step)
    ensures Control(Do(s, step).value)
  {
    if step.SendEncode? {
      SendEncodeKeeps(s, step.call);
    } else if step.SendWrite? {
      SendWriteKeeps(s, step.call, step.io);
    } else {
      MutexStepKeepsControl(s, step);
    }
  }

  lemma StopStepKeepsControl(s: State, step: Step)
    requires Control(s) && Do(s, step).Some? && StopStep(step)
    ensures Control(Do(s, step).value)
  {
    match step
    case StopBegin(call) => StopBeginKeeps(s, call);
    case StopLock(call) => StopLockKeeps(s, call);
    case StopClose(call) => StopCloseKeeps(s, call);
    case StopExchange(call) => StopExchangeKeeps(s, call);
    case StopJoin(call) => StopJoinKeeps(s, call);
    case StopReset(call) => StopResetKeeps(s, call);
    case StopClear(call) => StopClearKeeps(s, call);
  }

  lemma EveryStepKeepsControl(s: State, step: Step)
    requires Control(s) && Do(s, step).Some?
    ensures Control(Do(s, step).value)
  {
    if SendStep(step) {
      SendStepKeepsControl(s, step);
    } else if StopStep(step) {
      StopStepKeepsControl(s, step);
    } else {
      AcceptStepKeepsControl(s, step);
    }
  }

  lemma InitialControl(hello: Envelope)
    ensures Control(Initial(hello))
  {
  }
}

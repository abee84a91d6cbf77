/**
 * The threads of a secure coordinator as atomic steps: one accept thread that runs every
 * connection's handler, any number of send calls and any number of stop calls. A critical section
 * under the coordinator's or the session's mutex is one step; a peer's write mutex is held across
 * steps, because the SSL calls made under it are steps of their own.
 */
module CoordinatorRuns {
  import opened Bytes
  import opened Wrappers
  import opened Protocol
  import opened TlsStream
  import opened Heartbeats

  /** Who holds a peer's write mutex. */
  datatype Holder = Free | Sender(call: nat) | Stopper(call: nat) | Handler

  /**
   * A connection's outgoing side. `committed` are the envelopes a write loop has begun to send and
   * `owners` the send call of each (None for the hello); `frame` is the bytes of the last of them,
   * `done` those of all before it, `sent` how much of `frame` is out, `out` everything that is out.
   */
  datatype Wire = Wire(
    committed: seq<Envelope>, owners: seq<Option<nat>>, done: seq<byte>, frame: seq<byte>, sent: nat, out: seq<byte>)

  /**
   * One connection: its socket, stream and peer. `writing` says that a write loop is running;
   * `greeted` records that establish returned true, `published` that the handler made the connection
   * the active one, `ended` that some stop() of the peer has taken the write mutex, `released` that
   * handle_socket has returned. `handled` are the envelopes its handler was called with, `answers`
   * what it returned for them, and `acks` its send calls for heartbeats.
   */
  datatype Conn = Conn(
    established: bool, closed: bool, holder: Holder, wire: Wire, writing: bool,
    greeted: bool, published: bool, ended: bool, released: bool,
    handled: seq<Envelope>, answers: seq<bool>, acks: seq<nat>)

  datatype Slot = Slot(conn: nat, index: nat)

  /** Where one SecureCoordinator::send call is. */
  datatype SendPc =
    | Copied(peer: Option<nat>, e: Envelope)
    | Locked(c: nat, e: Envelope)
    | Checked(c: nat, e: Envelope)
    | Writing(c: nat, e: Envelope)
    | SendDone(ok: bool, e: Envelope, slot: Option<Slot>)

  /** Where one SecureCoordinator::stop call is; `won` is the epoch whose running flag it took down. */
  datatype StopPc =
    | StopCopied(peer: Option<nat>)
    | StopLocked(c: nat)
    | PeerStopped
    | Joining(epoch: nat)
    | Joined(epoch: nat)
    | ClearingAll(won: Option<nat>)
    | StopDone(won: Option<nat>)

  /** Where the accept thread is, inside accept_loop or inside handle_socket for a connection. */
  datatype AcceptPc =
    | Exited
    | Looping
    | Selecting
    | Establishing(c: nat)
    | Helloing(c: nat)
    | AwaitHello(c: nat)
    | Publishing(c: nat)
    | Running(c: nat)
    | Reading(c: nat)
    | Handling(c: nat, e: Envelope)
    | Marking(c: nat)
    | Acking(c: nat, call: nat)
    | Ending(c: nat, again: bool)
    | EndLocked(c: nat, again: bool)
    | Clearing(c: nat)
    | Releasing(c: nat)

  datatype State = State(
    hello: Envelope,
    running: bool, listener: bool, joinable: bool, epoch: nat, aborted: bool,
    accept: AcceptPc,
    activeSocket: Option<nat>, activeStream: Option<nat>, activePeer: Option<nat>,
    conns: seq<Conn>,
    sends: map<nat, SendPc>,
    stops: map<nat, StopPc>)

  function Initial(hello: Envelope): State {
    State(hello, false, false, false, 0, false, Exited, None, None, None, [], map[], map[])
  }

  datatype Step =
    | Start
    | AcceptCheck | AcceptAgain | AcceptFailed | Accepted
    | HandshakeDone | HelloWrite(io: Io) | HelloReceived | EstablishFails
    | Publish | RunGuard | Received(e: Envelope) | ReadFails | MarkFailed | HandlerAnswers(ok: bool) | AckBegin(call: nat) | AckEnd
    | EndLock | EndClose | EndClear | Release
    | SendBegin(call: nat, e: Envelope) | SendLock(call: nat) | SendCheck(call: nat) | SendEncode(call: nat) | SendWrite(call: nat, io: Io)
    | StopBegin(call: nat) | StopLock(call: nat) | StopClose(call: nat) | StopExchange(call: nat) | StopJoin(call: nat)
    | StopReset(call: nat) | StopClear(call: nat)

  // The steps by who takes them.

  predicate LoopStep(step: Step) {
    step.Start? || step.AcceptCheck? || step.AcceptAgain? || step.AcceptFailed? || step.Accepted?
  }

  predicate EstablishStep(step: Step) {
    step.HandshakeDone? || step.HelloReceived? || step.EstablishFails?
  }

  predicate HandlerStep(step: Step) {
    || step.Publish? || step.RunGuard? || step.Received? || step.ReadFails? || step.MarkFailed?
    || step.HandlerAnswers? || step.AckBegin? || step.AckEnd?
  }

  predicate EndStep(step: Step) {
    step.EndLock? || step.EndClose? || step.EndClear? || step.Release?
  }

  predicate MutexStep(step: Step) {
    step.SendBegin? || step.SendLock? || step.SendCheck?
  }

  predicate StopStep(step: Step) {
    step.StopBegin? || step.StopLock? || step.StopClose? || step.StopExchange? || step.StopJoin? || step.StopReset? || step.StopClear?
  }

  predicate SendStep(step: Step) {
    MutexStep(step) || step.SendEncode? || step.SendWrite?
  }

  /** The connection the accept thread's handler is working on. */
  function Current(a: AcceptPc): Option<nat> {
    match a
    case Exited => None
    case Looping => None
    case Selecting => None
    case Establishing(c) => Some(c)
    case Helloing(c) => Some(c)
    case AwaitHello(c) => Some(c)
    case Publishing(c) => Some(c)
    case Running(c) => Some(c)
    case Reading(c) => Some(c)
    case Handling(c, _) => Some(c)
    case Marking(c) => Some(c)
    case Acking(c, _) => Some(c)
    case Ending(c, _) => Some(c)
    case EndLocked(c, _) => Some(c)
    case Clearing(c) => Some(c)
    case Releasing(c) => Some(c)
  }

  predicate At(s: State, c: nat) {
    c < |s.conns|
  }

  function With(s: State, c: nat, k: Conn): State
    requires At(s, c)
  {
    s.(conns := s.conns[c := k])
  }

  predicate AllOut(w: Wire) {
    w.sent == |w.frame|
  }

  /** A write loop starts on the frame of e. */
  function Commit(w: Wire, e: Envelope, owner: Option<nat>): Wire {
    Wire(w.committed + [e], w.owners + [owner], w.done + w.frame, Frame(e), 0, w.out)
  }

  /** One SSL_write inside write_exact. */
  function WriteCall(w: Wire, io: Io): Wire
    requires w.sent < |w.frame|
  {
    if !io.Moved? then w
    else
      var count := Min(io.count, Min(|w.frame| - w.sent, MAX_CALL));
      w.(out := w.out + w.frame[w.sent..w.sent + count], sent := w.sent + count)
  }

  // ---- the coordinator's start and the accept thread ----

  /** A start whose port opens; one whose port does not changes nothing and is no step. */
  function DoStart(s: State): Option<State> {
    if s.running then Some(s)
    else if s.joinable then Some(s.(aborted := true))
    else Some(s.(running := true, listener := true, joinable := true, epoch := s.epoch + 1, accept := Looping))
  }

  function DoAcceptCheck(s: State): Option<State> {
    if !s.accept.Looping? then None
    else if !s.running || !s.listener then Some(s.(accept := Exited))
    else Some(s.(accept := Selecting))
  }

  function DoAcceptAgain(s: State): Option<State> {
    if !s.accept.Selecting? then None else Some(s.(accept := Looping))
  }

  function DoAcceptFailed(s: State): Option<State> {
    if !s.accept.Selecting? then None
    else Some(s.(accept := if s.running then Looping else Exited))
  }

  function DoAccepted(s: State): Option<State> {
    if !s.accept.Selecting? then None
    else Some(s.(accept := Establishing(|s.conns|),
                 conns := s.conns + [Conn(false, false, Free, Wire([], [], [], [], 0, []), false, false, false, false, false, [], [], [])]))
  }

  function DoHandshakeDone(s: State): Option<State> {
    if !s.accept.Establishing? || !At(s, s.accept.c) || !Sendable(s.hello) then None
    else 
      var k := s.conns[s.accept.c];
      Some(With(s, s.accept.c, k.(wire := Commit(k.wire, s.hello, None), writing := true)).(accept := Helloing(s.accept.c)))
  }

  /** One turn of the hello's write loop; a failed call also makes establish stop the peer. */
  function HelloWritten(k: Conn, io: Io): Conn
    requires k.wire.sent < |k.wire.frame|
  {
    if io.Failed? then k.(closed := true, ended := true, writing := false)
    else
      var w := WriteCall(k.wire, io);
      k.(wire := w, writing := k.writing && !AllOut(w))
  }

  function DoHelloWrite(s: State, io: Io): Option<State> {
    if !s.accept.Helloing? || !At(s, s.accept.c) || s.conns[s.accept.c].wire.sent >= |s.conns[s.accept.c].wire.frame| then None
    else
      var c := s.accept.c;
      var k := HelloWritten(s.conns[c], io);
      Some(With(s, c, k).(accept := if io.Failed? then Releasing(c) else if AllOut(k.wire) then AwaitHello(c) else Helloing(c)))
  }

  function DoHelloReceived(s: State): Option<State> {
    if !s.accept.AwaitHello? || !At(s, s.accept.c) then None
    else Some(With(s, s.accept.c, s.conns[s.accept.c].(established := true, greeted := true)).(accept := Publishing(s.accept.c)))
  }

  /** A handshake, hello or role that is no good: establish stops the peer and the handler returns. */
  function DoEstablishFails(s: State): Option<State> {
    if !(s.accept.Establishing? || s.accept.AwaitHello?) || !At(s, s.accept.c) then None
    else Some(With(s, s.accept.c, s.conns[s.accept.c].(closed := true, ended := true)).(accept := Releasing(s.accept.c)))
  }

  /** The duplicate branch stops the new peer and returns without publishing it. */
  function DoPublish(s: State): Option<State> {
    if !s.accept.Publishing? || !At(s, s.accept.c) then None
    else
      var c := s.accept.c;
      if s.activePeer.Some? then
        Some(With(s, c, s.conns[c].(established := false, closed := true, ended := true)).(accept := Releasing(c)))
      else
        Some(With(s, c, s.conns[c].(published := true))
             .(accept := Running(c), activeSocket := Some(c), activeStream := Some(c), activePeer := Some(c)))
  }

  function DoRunGuard(s: State): Option<State> {
    if !s.accept.Running? || !At(s, s.accept.c) then None
    else if s.conns[s.accept.c].established then Some(s.(accept := Reading(s.accept.c)))
    else Some(s.(accept := Ending(s.accept.c, false)))
  }

  /** Stream::read gives an envelope and the handler is called with it. */
  function DoReceived(s: State, e: Envelope): Option<State> {
    if !s.accept.Reading? || !At(s, s.accept.c) || !Sendable(e) then None
    else
      var c := s.accept.c;
      Some(With(s, c, s.conns[c].(handled := s.conns[c].handled + [e])).(accept := Handling(c, e)))
  }

  /** Stream::read gives nothing; it closes the stream without the write mutex. */
  function DoReadFails(s: State): Option<State> {
    if !s.accept.Reading? || !At(s, s.accept.c) then None
    else Some(With(s, s.accept.c, s.conns[s.accept.c].(closed := true)).(accept := Marking(s.accept.c)))
  }

  function DoMarkFailed(s: State): Option<State> {
    if !s.accept.Marking? || !At(s, s.accept.c) then None
    else Some(With(s, s.accept.c, s.conns[s.accept.c].(established := false)).(accept := Ending(s.accept.c, false)))
  }

  /** What the handler returns decides whether the receive loop goes on or stops the peer. */
  function Answered(s: State, c: nat, ok: bool): State
    requires At(s, c)
  {
    With(s, c, s.conns[c].(answers := s.conns[c].answers + [ok])).(accept := if ok then Running(c) else Ending(c, true))
  }

  /** Anything but a heartbeat: a close request is rejected, the rest is up to the router. */
  function DoHandlerAnswers(s: State, ok: bool): Option<State> {
    if !s.accept.Handling? || !At(s, s.accept.c) || Heartbeat(s.accept.e) then None
    else Some(Answered(s, s.accept.c, ok && !CloseRequest(s.accept.e)))
  }

  /** A heartbeat is answered by a send through the handler's own copy of the peer. */
  function DoAckBegin(s: State, call: nat): Option<State> {
    if !s.accept.Handling? || !At(s, s.accept.c) || !Heartbeat(s.accept.e) || call in s.sends then None
    else
      var Handling(c, e) := s.accept;
      Some(With(s, c, s.conns[c].(acks := s.conns[c].acks + [call]))
           .(accept := Acking(c, call), sends := s.sends[call := Copied(Some(c), AckFor(e))]))
  }

  function DoAckEnd(s: State): Option<State> {
    if !s.accept.Acking? || !At(s, s.accept.c) || s.accept.call !in s.sends || !s.sends[s.accept.call].SendDone? then None
    else Some(Answered(s, s.accept.c, s.sends[s.accept.call].ok))
  }

  /** peer->stop() by the handler, first half: the mutex is taken and established_ cleared. */
  function DoEndLock(s: State): Option<State> {
    if !s.accept.Ending? || !At(s, s.accept.c) || !s.conns[s.accept.c].holder.Free? then None
    else Some(With(s, s.accept.c, s.conns[s.accept.c].(holder := Handler, established := false, ended := true))
              .(accept := EndLocked(s.accept.c, s.accept.again)))
  }

  function DoEndClose(s: State): Option<State> {
    if !s.accept.EndLocked? || !At(s, s.accept.c) then None
    else Some(With(s, s.accept.c, s.conns[s.accept.c].(holder := Free, closed := true))
              .(accept := if s.accept.again then Ending(s.accept.c, false) else Clearing(s.accept.c)))
  }

  function DoEndClear(s: State): Option<State> {
    if !s.accept.Clearing? then None
    else if s.activePeer == Some(s.accept.c) then
      Some(s.(accept := Releasing(s.accept.c), activePeer := None, activeStream := None, activeSocket := None))
    else Some(s.(accept := Releasing(s.accept.c)))
  }

  function DoRelease(s: State): Option<State> {
    if !s.accept.Releasing? || !At(s, s.accept.c) then None
    else Some(With(s, s.accept.c, s.conns[s.accept.c].(released := true)).(accept := Looping))
  }

  // ---- send calls ----

  function DoSendBegin(s: State, call: nat, e: Envelope): Option<State> {
    if call in s.sends then None
    else Some(s.(sends := s.sends[call := Copied(s.activePeer, e)]))
  }

  function Finish(s: State, call: nat, ok: bool, e: Envelope, slot: Option<Slot>): State {
    s.(sends := s.sends[call := SendDone(ok, e, slot)])
  }

  function DoSendLock(s: State, call: nat): Option<State> {
    if call !in s.sends || !s.sends[call].Copied? then None
    else match s.sends[call].peer
      case None => Some(Finish(s, call, false, s.sends[call].e, None))
      case Some(c) =>
        if !At(s, c) || !s.conns[c].holder.Free? then None
        else Some(With(s, c, s.conns[c].(holder := Sender(call))).(sends := s.sends[call := Locked(c, s.sends[call].e)]))
  }

  function DoSendCheck(s: State, call: nat): Option<State> {
    if call !in s.sends || !s.sends[call].Locked? || !At(s, s.sends[call].c) then None
    else
      var Locked(c, e) := s.sends[call];
      if s.conns[c].established then Some(s.(sends := s.sends[call := Checked(c, e)]))
      else Some(Finish(With(s, c, s.conns[c].(holder := Free)), call, false, e, None))
  }

  /** Stream::write up to its loop: a closed stream or an unsendable envelope ends the send here. */
  function Encoded(k: Conn, call: nat, e: Envelope): Conn {
    if k.closed || !Sendable(e) then k.(holder := Free)
    else k.(wire := Commit(k.wire, e, Some(call)), writing := true)
  }

  function DoSendEncode(s: State, call: nat): Option<State> {
    if call !in s.sends || !s.sends[call].Checked? || !At(s, s.sends[call].c) then None
    else
      var Checked(c, e) := s.sends[call];
      var k := Encoded(s.conns[c], call, e);
      Some(With(s, c, k).(sends := s.sends[call := if k.holder.Free? then SendDone(false, e, None) else Writing(c, e)]))
  }

  /** One turn of the write loop; a stream closed meanwhile makes the call fail. */
  function Written(k: Conn, io: Io): Conn
    requires k.wire.sent < |k.wire.frame|
  {
    if k.closed || io.Failed? then k.(closed := true, holder := Free, writing := false)
    else
      var w := WriteCall(k.wire, io);
      if AllOut(w) then k.(wire := w, holder := Free, writing := false) else k.(wire := w)
  }

  function DoSendWrite(s: State, call: nat, io: Io): Option<State> {
    if call !in s.sends || !s.sends[call].Writing? || !At(s, s.sends[call].c) then None
    else
      var Writing(c, e) := s.sends[call];
      if s.conns[c].wire.sent >= |s.conns[c].wire.frame| || s.conns[c].wire.committed == [] then None
      else
        var k := Written(s.conns[c], io);
        var pc := if k.holder.Free? then SendDone(AllOut(k.wire), e, Some(Slot(c, |k.wire.committed| - 1))) else Writing(c, e);
        Some(With(s, c, k).(sends := s.sends[call := pc]))
  }

  // ---- stop calls ----

  function StopAt(s: State, call: nat, pc: StopPc): State {
    s.(stops := s.stops[call := pc])
  }

  function DoStopBegin(s: State, call: nat): Option<State> {
    if call in s.stops then None else Some(StopAt(s, call, StopCopied(s.activePeer)))
  }

  function DoStopLock(s: State, call: nat): Option<State> {
    if call !in s.stops || !s.stops[call].StopCopied? then None
    else match s.stops[call].peer
      case None => Some(StopAt(s, call, PeerStopped))
      case Some(c) =>
        if !At(s, c) || !s.conns[c].holder.Free? then None
        else Some(StopAt(With(s, c, s.conns[c].(holder := Stopper(call), established := false, ended := true)), call, StopLocked(c)))
  }

  function DoStopClose(s: State, call: nat): Option<State> {
    if call !in s.stops || !s.stops[call].StopLocked? || !At(s, s.stops[call].c) then None
    else
      var c := s.stops[call].c;
      Some(StopAt(With(s, c, s.conns[c].(holder := Free, closed := true)), call, PeerStopped))
  }

  function DoStopExchange(s: State, call: nat): Option<State> {
    if call !in s.stops || !s.stops[call].PeerStopped? then None
    else if s.running then Some(StopAt(s.(running := false), call, Joining(s.epoch)))
    else Some(StopAt(s, call, ClearingAll(None)))
  }

  function DoStopJoin(s: State, call: nat): Option<State> {
    if call !in s.stops || !s.stops[call].Joining? || !s.accept.Exited? then None
    else Some(StopAt(s.(joinable := false), call, Joined(s.stops[call].epoch)))
  }

  function DoStopReset(s: State, call: nat): Option<State> {
    if call !in s.stops || !s.stops[call].Joined? then None
    else Some(StopAt(s.(listener := false), call, ClearingAll(Some(s.stops[call].epoch))))
  }

  function DoStopClear(s: State, call: nat): Option<State> {
    if call !in s.stops || !s.stops[call].ClearingAll? then None
    else Some(StopAt(s.(activePeer := None, activeStream := None, activeSocket := None), call, StopDone(s.stops[call].won)))
  }

  /** What a step does where it is possible; nothing is possible after an abort. */
  function Do(s: State, step: Step): Option<State> {
    if s.aborted then None else
    match step
    case Start => DoStart(s)
    case AcceptCheck => DoAcceptCheck(s)
    case AcceptAgain => DoAcceptAgain(s)
    case AcceptFailed => DoAcceptFailed(s)
    case Accepted => DoAccepted(s)
    case HandshakeDone => DoHandshakeDone(s)
    case HelloWrite(io) => DoHelloWrite(s, io)
    case HelloReceived => DoHelloReceived(s)
    case EstablishFails => DoEstablishFails(s)
    case Publish => DoPublish(s)
    case RunGuard => DoRunGuard(s)
    case Received(e) => DoReceived(s, e)
    case ReadFails => DoReadFails(s)
    case MarkFailed => DoMarkFailed(s)
    case HandlerAnswers(ok) => DoHandlerAnswers(s, ok)
    case AckBegin(call) => DoAckBegin(s, call)
    case AckEnd => DoAckEnd(s)
    case EndLock => DoEndLock(s)
    case EndClose => DoEndClose(s)
    case EndClear => DoEndClear(s)
    case Release => DoRelease(s)
    case SendBegin(call, e) => DoSendBegin(s, call, e)
    case SendLock(call) => DoSendLock(s, call)
    case SendCheck(call) => DoSendCheck(s, call)
    case SendEncode(call) => DoSendEncode(s, call)
    case SendWrite(call, io) => DoSendWrite(s, call, io)
    case StopBegin(call) => DoStopBegin(s, call)
    case StopLock(call) => DoStopLock(s, call)
    case StopClose(call) => DoStopClose(s, call)
    case StopExchange(call) => DoStopExchange(s, call)
    case StopJoin(call) => DoStopJoin(s, call)
    case StopReset(call) => DoStopReset(s, call)
    case StopClear(call) => DoStopClear(s, call)
  }

  /** A run: the states one interleaving goes through, each the result of a step from the one before. */
  ghost predicate Run(start: State, trace: seq<State>, steps: seq<Step>) {
    && |trace| == |steps| + 1 && trace[0] == start
    && forall i {:trigger steps[i]} | 0 <= i < |steps| :: Do(trace[i], steps[i]) == Some(trace[i + 1])
  }
}

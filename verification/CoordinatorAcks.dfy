/**
 * What the handler's acks answer: in every interleaving, with other senders and stoppers at any
 * point, they follow the handled heartbeats one for one.
 */
module CoordinatorAcks {
  import opened Bytes
  import opened Wrappers
  import opened Protocol
  import opened Framing
  import opened TlsStream
  import opened Heartbeats
  import opened CoordinatorRuns
  import opened CoordinatorInvariant
  import opened CoordinatorWires
  import opened CoordinatorSafety

  /** The committed envelopes that belong to one of these send calls, in the order of the wire. */
  function Owned(es: seq<Envelope>, owners: seq<Option<nat>>, calls: seq<nat>): seq<Envelope>
    requires |es| == |owners|
  {
    if es == [] then []
    else
      var n := |es| - 1;
      Owned(es[..n], owners[..n], calls) + if owners[n].Some? && owners[n].value in calls then [es[n]] else []
  }

  function Target(pc: SendPc): Option<nat> {
    match pc
    case Copied(peer, _) => peer
    case Locked(c, _) => Some(c)
    case Checked(c, _) => Some(c)
    case Writing(c, _) => Some(c)
    case SendDone(_, _, _) => None
  }

  /** The call's envelope is on a wire. */
  predicate Begun(pc: SendPc) {
    pc.Writing? || (pc.SendDone? && pc.slot.Some?)
  }

  predicate Succeeded(s: State, call: nat) {
    call in s.sends && s.sends[call].SendDone? && s.sends[call].ok && s.sends[call].slot.Some?
  }

  predicate Sends(s: State, call: nat, c: nat, e: Envelope) {
    && call in s.sends && s.sends[call].e == e
    && (s.sends[call].SendDone? || Target(s.sends[call]) == Some(c))
  }

  /** How many of the ack calls have their envelope on the wire: all of them, or all but the last. */
  function OnWire(s: State, acks: seq<nat>): nat
    requires forall j | 0 <= j < |acks| :: acks[j] in s.sends
  {
    if acks == [] then 0
    else if Begun(s.sends[acks[|acks| - 1]]) then |acks| else |acks| - 1
  }

  predicate OwnersOk(s: State, w: Wire) {
    && |w.owners| == |w.committed|
    && forall i | 0 <= i < |w.owners| :: w.owners[i].Some? ==> w.owners[i].value in s.sends && Begun(s.sends[w.owners[i].value])
  }

  /** The handler's send calls are for the acks it owes, in order, and all but the last have succeeded. */
  predicate CallsOk(s: State, c: nat, k: Conn) {
    && |k.acks| <= |Acks(k.handled)| <= |k.acks| + 1
    && (forall j | 0 <= j < |k.acks| :: Sends(s, k.acks[j], c, Acks(k.handled)[j]))
    && (forall j | 0 <= j < |k.acks| - 1 :: Succeeded(s, k.acks[j]))
  }

  predicate OnWireOk(s: State, k: Conn)
    requires |k.acks| <= |Acks(k.handled)|
    requires forall j | 0 <= j < |k.acks| :: k.acks[j] in s.sends
  {
    && OwnersOk(s, k.wire)
    && Owned(k.wire.committed, k.wire.owners, k.acks) == Acks(k.handled)[..OnWire(s, k.acks)]
    && |Acks(k.handled)| <= OnWire(s, k.acks) + 1
    && (OnWire(s, k.acks) < |Acks(k.handled)| ==> k.handled != [] && Heartbeat(k.handled[|k.handled| - 1]))
  }

  /** The handler is called again only after it has returned true. */
  predicate AnswersOk(k: Conn) {
    && |k.answers| <= |k.handled| <= |k.answers| + 1
    && (forall j | 0 <= j < |k.handled| - 1 :: k.answers[j])
    && (forall j | 0 <= j < |k.answers| :: k.answers[j] ==> !CloseRequest(k.handled[j]))
  }

  ghost predicate HistoryOk(s: State, c: nat, k: Conn) {
    AllSendable(k.handled) && AnswersOk(k) && CallsOk(s, c, k) && OnWireOk(s, k)
  }

  predicate NothingYet(s: State, c: nat) {
    At(s, c) && s.conns[c].handled == [] && s.conns[c].answers == [] && s.conns[c].acks == []
  }

  /** Every envelope so far is answered with true, every heartbeat with a successful send. */
  predicate AllAnswered(s: State, k: Conn) {
    && |k.answers| == |k.handled| && (forall j | 0 <= j < |k.answers| :: k.answers[j])
    && |k.acks| == |Acks(k.handled)|
    && (forall j | 0 <= j < |k.acks| :: Succeeded(s, k.acks[j]))
  }

  predicate InHandler(k: Conn) {
    |k.answers| + 1 == |k.handled|
  }

  predicate StageOk(s: State) {
    match s.accept
    case Establishing(c) => NothingYet(s, c)
    case Helloing(c) => NothingYet(s, c)
    case AwaitHello(c) => NothingYet(s, c)
    case Publishing(c) => NothingYet(s, c)
    case Running(c) => At(s, c) && AllAnswered(s, s.conns[c])
    case Reading(c) => At(s, c) && AllAnswered(s, s.conns[c])
    case Handling(c, e) =>
      && At(s, c) && InHandler(s.conns[c])
      && s.conns[c].handled[|s.conns[c].handled| - 1] == e
      && |s.conns[c].acks| + (if Heartbeat(e) then 1 else 0) == |Acks(s.conns[c].handled)|
      && (forall j | 0 <= j < |s.conns[c].acks| :: Succeeded(s, s.conns[c].acks[j]))
    case Acking(c, call) =>
      && At(s, c) && InHandler(s.conns[c]) && s.conns[c].acks != []
      && |s.conns[c].acks| == |Acks(s.conns[c].handled)|
      && s.conns[c].acks[|s.conns[c].acks| - 1] == call
      && Heartbeat(s.conns[c].handled[|s.conns[c].handled| - 1])
    case _ => true
  }

  ghost predicate History(s: State) {
    && StageOk(s)
    && forall c | 0 <= c < |s.conns| :: HistoryOk(s, c, s.conns[c])
  }

  // ---- steps that leave the histories alone ----

  /** A send call goes on without committing its envelope. */
  predicate Onward(p: SendPc, p': SendPc) {
    || p' == p
    || (!p.SendDone? && p'.e == p.e && (p'.SendDone? || Target(p') == Target(p)) && Begun(p') == Begun(p))
  }

  predicate AllOnward(s: State, s': State) {
    forall call | call in s.sends :: call in s'.sends && Onward(s.sends[call], s'.sends[call])
  }

  /** A call that is done stays so. */
  predicate DoneStay(s: State, s': State) {
    forall call | call in s.sends && s.sends[call].SendDone? :: call in s'.sends && s'.sends[call] == s.sends[call]
  }

  predicate BegunStay(s: State, s': State) {
    forall call | call in s.sends && Begun(s.sends[call]) :: call in s'.sends && Begun(s'.sends[call])
  }

  predicate SameRecord(k: Conn, k': Conn) {
    k'.handled == k.handled && k'.answers == k.answers && k'.acks == k.acks
  }

  predicate SameHistory(k: Conn, k': Conn) {
    SameRecord(k, k') && k'.wire.committed == k.wire.committed && k'.wire.owners == k.wire.owners
  }

  lemma HistoryStays(s: State, s': State, c: nat, k: Conn, k': Conn)
    requires HistoryOk(s, c, k) && BegunStay(s, s') && SameHistory(k, k')
    requires forall call | call in s.sends && call in k.acks :: call in s'.sends && Onward(s.sends[call], s'.sends[call])
    ensures HistoryOk(s', c, k')
  {
    forall j | 0 <= j < |k.acks| ensures Sends(s', k.acks[j], c, Acks(k.handled)[j]) {
      assert Sends(s, k.acks[j], c, Acks(k.handled)[j]);
    }
    forall j | 0 <= j < |k.acks| - 1 ensures Succeeded(s', k.acks[j]) {
      assert Succeeded(s, k.acks[j]);
    }
  }

  lemma AnsweredStays(s: State, s': State, k: Conn, k': Conn)
    requires AllAnswered(s, k) && DoneStay(s, s') && SameRecord(k, k')
    ensures AllAnswered(s', k')
  {
    forall j | 0 <= j < |k.acks| ensures Succeeded(s', k.acks[j]) {
      assert Succeeded(s, k.acks[j]);
    }
  }

  /** Where the accept thread does not move and no record changes, the stage stays right. */
  lemma StageStays(s: State, s': State)
    requires StageOk(s) && s'.accept == s.accept && DoneStay(s, s')
    requires |s'.conns| == |s.conns| && forall c | 0 <= c < |s.conns| :: SameRecord(s.conns[c], s'.conns[c])
    ensures StageOk(s')
  {
    match s.accept
    case Running(c) => AnsweredStays(s, s', s.conns[c], s'.conns[c]);
    case Reading(c) => AnsweredStays(s, s', s.conns[c], s'.conns[c]);
    case Handling(c, e) =>
      forall j | 0 <= j < |s.conns[c].acks| ensures Succeeded(s', s.conns[c].acks[j]) {
        assert Succeeded(s, s.conns[c].acks[j]);
      }
    case _ =>
  }

  /** The steps that write no history. */
  predicate Silent(step: Step) {
    && !step.Accepted? && !step.HandshakeDone? && !step.SendEncode?
    && !step.Received? && !step.HandlerAnswers? && !step.AckBegin? && !step.AckEnd?
  }

  lemma SilentKeepsHistories(s: State, step: Step)
    requires Control(s) && Wires(s) && History(s) && Do(s, step).Some? && Silent(step)
    requires AllOnward(s, Do(s, step).value) && |Do(s, step).value.conns| == |s.conns|
    ensures var s' := Do(s, step).value;
      && (forall c | 0 <= c < |s.conns| :: SameHistory(s.conns[c], s'.conns[c]))
      && (forall c | 0 <= c < |s'.conns| :: HistoryOk(s', c, s'.conns[c]))
  {
    var s' := Do(s, step).value;
    forall c | 0 <= c < |s.conns| ensures SameHistory(s.conns[c], s'.conns[c]) && HistoryOk(s', c, s'.conns[c]) {
      StepEvolves(s, step, c);
      EvolvesSilently(s, step, s.conns[c], s'.conns[c]);
      HistoryStays(s, s', c, s.conns[c], s'.conns[c]);
    }
  }

  lemma EvolvesSilently(s: State, step: Step, k: Conn, k': Conn)
    requires Evolves(s, step, k, k') && Silent(step)
    ensures SameHistory(k, k')
  {
  }

  // ---- what each thread's steps do to send calls and stages ----

  /** Only senders, and the handler starting an ack, touch the send calls. */
  lemma SendsStay(s: State, step: Step)
    requires Do(s, step).Some? && !SendStep(step) && !step.AckBegin?
    ensures Do(s, step).value.sends == s.sends
  {
    if StopStep(step) {
      StopLeavesSends(s, step);
    } else if LoopStep(step) {
      LoopLeavesSends(s, step);
    } else if EndStep(step) {
      EndLeavesSends(s, step);
    } else if HandlerStep(step) {
      HandlerLeavesSends(s, step);
    } else {
      EstablishLeavesSends(s, step);
    }
  }

  lemma StopLeavesSends(s: State, step: Step)
    requires Do(s, step).Some? && StopStep(step)
    ensures Do(s, step).value.sends == s.sends && Do(s, step).value.accept == s.accept
  {
  }

  lemma LoopLeavesSends(s: State, step: Step)
    requires Do(s, step).Some? && LoopStep(step)
    ensures Do(s, step).value.sends == s.sends
  {
  }

  lemma EndLeavesSends(s: State, step: Step)
    requires Do(s, step).Some? && EndStep(step)
    ensures Do(s, step).value.sends == s.sends
  {
  }

  lemma HandlerLeavesSends(s: State, step: Step)
    requires Do(s, step).Some? && HandlerStep(step) && !step.AckBegin?
    ensures Do(s, step).value.sends == s.sends
  {
    if step.AckEnd? {
      assert DoAckEnd(s).value.sends == s.sends;
    } else if step.HandlerAnswers? {
      assert DoHandlerAnswers(s, step.ok).value.sends == s.sends;
    } else if step.Received? {
      assert DoReceived(s, step.e).value.sends == s.sends;
    } else {
      ReadLeavesSends(s, step);
    }
  }

  lemma ReadLeavesSends(s: State, step: Step)
    requires Do(s, step).Some? && (step.Publish? || step.RunGuard? || step.ReadFails? || step.MarkFailed?)
    ensures Do(s, step).value.sends == s.sends
  {
  }

  lemma EstablishLeavesSends(s: State, step: Step)
    requires Do(s, step).Some? && (step.HelloWrite? || EstablishStep(step))
    ensures Do(s, step).value.sends == s.sends
  {
    if step.HelloWrite? {
      assert DoHelloWrite(s, step.io).value.sends == s.sends;
    } else if step.HandshakeDone? {
      assert DoHandshakeDone(s).value.sends == s.sends;
    } else if step.HelloReceived? {
      assert DoHelloReceived(s).value.sends == s.sends;
    } else {
      assert DoEstablishFails(s).value.sends == s.sends;
    }
  }

  lemma SendLockGoesOn(s: State, call: nat)
    requires DoSendLock(s, call).Some?
    ensures AllOnward(s, DoSendLock(s, call).value) && DoSendLock(s, call).value.accept == s.accept
  {
  }

  lemma SendCheckGoesOn(s: State, call: nat)
    requires DoSendCheck(s, call).Some?
    ensures AllOnward(s, DoSendCheck(s, call).value) && DoSendCheck(s, call).value.accept == s.accept
  {
  }

  lemma MutexStepGoesOn(s: State, step: Step)
    requires Do(s, step).Some? && MutexStep(step)
    ensures AllOnward(s, Do(s, step).value) && Do(s, step).value.accept == s.accept
  {
    if step.SendBegin? {
      assert AllOnward(s, DoSendBegin(s, step.call, step.e).value);
    } else if step.SendLock? {
      SendLockGoesOn(s, step.call);
    } else {
      SendCheckGoesOn(s, step.call);
    }
  }

  lemma SendWriteGoesOn(s: State, call: nat, io: Io)
    requires DoSendWrite(s, call, io).Some?
    ensures AllOnward(s, DoSendWrite(s, call, io).value) && DoSendWrite(s, call, io).value.accept == s.accept
  {
  }

  // ---- silent steps ----

  lemma SilentSendKeeps(s: State, step: Step)
    requires Control(s) && Wires(s) && History(s) && Do(s, step).Some? && SendStep(step) && Silent(step)
    ensures History(Do(s, step).value)
  {
    if step.SendWrite? {
      SendWriteGoesOn(s, step.call, step.io);
    } else {
      MutexStepGoesOn(s, step);
    }
    SendStepKeepsService(s, step);
    SilentKeepsHistories(s, step);
    StageStays(s, Do(s, step).value);
  }

  lemma StopKeepsHistory(s: State, step: Step)
    requires Control(s) && Wires(s) && History(s) && Do(s, step).Some? && StopStep(step)
    ensures History(Do(s, step).value)
  {
    StopLeavesSends(s, step);
    StopStepMakesNoConnection(s, step);
    SilentKeepsHistories(s, step);
    StageStays(s, Do(s, step).value);
  }

  /** The accept thread's silent steps: the next stage asks no more than the one before gave. */
  lemma SilentAcceptStage(s: State, step: Step)
    requires StageOk(s) && Do(s, step).Some? && Silent(step) && !SendStep(step) && !StopStep(step)
    requires Do(s, step).value.sends == s.sends
    requires |Do(s, step).value.conns| == |s.conns|
    requires forall c | 0 <= c < |s.conns| :: SameHistory(s.conns[c], Do(s, step).value.conns[c])
    ensures StageOk(Do(s, step).value)
  {
    var s' := Do(s, step).value;
    if step.RunGuard? {
      RunGuardStage(s);
    } else if HandlerStep(step) {
      PublishStage(s, step);
    } else if LoopStep(step) {
      LoopStage(s, step);
    } else if EndStep(step) {
      EndStage(s, step);
    } else {
      EstablishStage(s, step);
    }
  }

  lemma RunGuardStage(s: State)
    requires StageOk(s) && DoRunGuard(s).Some?
    ensures StageOk(DoRunGuard(s).value)
  {
    var c := s.accept.c;
    if s.conns[c].established {
      var s' := s.(accept := Reading(c));
      AnsweredStays(s, s', s.conns[c], s'.conns[c]);
    } else {
      assert StageOk(s.(accept := Ending(c, false)));
    }
  }

  lemma PublishStage(s: State, step: Step)
    requires StageOk(s) && Do(s, step).Some? && (step.Publish? || step.ReadFails? || step.MarkFailed?)
    requires |Do(s, step).value.conns| == |s.conns|
    requires forall c | 0 <= c < |s.conns| :: SameHistory(s.conns[c], Do(s, step).value.conns[c])
    ensures StageOk(Do(s, step).value)
  {
  }

  lemma LoopStage(s: State, step: Step)
    requires StageOk(s) && Do(s, step).Some? && LoopStep(step) && !step.Accepted?
    requires Do(s, step).value.sends == s.sends && |Do(s, step).value.conns| == |s.conns|
    requires forall c | 0 <= c < |s.conns| :: SameHistory(s.conns[c], Do(s, step).value.conns[c])
    ensures StageOk(Do(s, step).value)
  {
    if Do(s, step).value.accept == s.accept {
      StageStays(s, Do(s, step).value);
    }
  }

  lemma EndStage(s: State, step: Step)
    requires Do(s, step).Some? && EndStep(step)
    ensures StageOk(Do(s, step).value)
  {
  }

  lemma EstablishStage(s: State, step: Step)
    requires StageOk(s) && Do(s, step).Some? && (step.HelloWrite? || step.HelloReceived? || step.EstablishFails?)
    requires |Do(s, step).value.conns| == |s.conns|
    requires forall c | 0 <= c < |s.conns| :: SameHistory(s.conns[c], Do(s, step).value.conns[c])
    ensures StageOk(Do(s, step).value)
  {
  }

  lemma SilentAcceptKeeps(s: State, step: Step)
    requires Control(s) && Wires(s) && History(s) && Do(s, step).Some?
    requires Silent(step) && !SendStep(step) && !StopStep(step)
    ensures History(Do(s, step).value)
  {
    SendsStay(s, step);
    if LoopStep(step) {
      LoopMakesNoConnection(s, step);
    } else {
      SameServiceAfter(s, step);
    }
    SilentKeepsHistories(s, step);
    SilentAcceptStage(s, step);
  }

  lemma LoopMakesNoConnection(s: State, step: Step)
    requires Do(s, step).Some? && LoopStep(step) && !step.Accepted?
    ensures |Do(s, step).value.conns| == |s.conns|
  {
  }

  // ---- the steps that write history ----

  lemma OwnedAppend(es: seq<Envelope>, owners: seq<Option<nat>>, calls: seq<nat>, e: Envelope, owner: Option<nat>)
    requires |es| == |owners|
    ensures Owned(es + [e], owners + [owner], calls) == Owned(es, owners, calls) + if owner.Some? && owner.value in calls then [e] else []
  {
    assert (es + [e])[..|es|] == es && (owners + [owner])[..|es|] == owners;
  }

  lemma {:induction false} OwnedByNewCall(es: seq<Envelope>, owners: seq<Option<nat>>, calls: seq<nat>, call: nat)
    requires |es| == |owners| && Some(call) !in owners
    ensures Owned(es, owners, calls + [call]) == Owned(es, owners, calls)
  {
    if es != [] {
      OwnedByNewCall(es[..|es| - 1], owners[..|es| - 1], calls, call);
    }
  }

  lemma AcksAppend(es: seq<Envelope>, e: Envelope)
    ensures Acks(es + [e]) == Acks(es) + if Heartbeat(e) then [AckFor(e)] else []
  {
    assert (es + [e])[..|es|] == es;
  }

  lemma AcceptedKeepsHistory(s: State)
    requires History(s) && DoAccepted(s).Some?
    ensures History(DoAccepted(s).value)
  {
    var s' := DoAccepted(s).value;
    forall c | 0 <= c < |s'.conns| ensures HistoryOk(s', c, s'.conns[c]) {
      if c < |s.conns| {
        HistoryStays(s, s', c, s.conns[c], s'.conns[c]);
      }
    }
  }

  lemma HandshakeDoneKeepsHistory(s: State)
    requires History(s) && DoHandshakeDone(s).Some?
    ensures History(DoHandshakeDone(s).value)
  {
    var s' := DoHandshakeDone(s).value;
    var c := s.accept.c;
    forall d | 0 <= d < |s'.conns| ensures HistoryOk(s', d, s'.conns[d]) {
      if d == c {
        HelloKeepsHistory(s, s', c);
      } else {
        HistoryStays(s, s', d, s.conns[d], s'.conns[d]);
      }
    }
  }

  /** The hello belongs to no call. */
  lemma HelloIsNoCall(w: Wire, hello: Envelope)
    requires |w.owners| == |w.committed|
    ensures Owned(w.committed + [hello], w.owners + [None], []) == Owned(w.committed, w.owners, [])
  {
    OwnedAppend(w.committed, w.owners, [], hello, None);
  }

  lemma HelloKeepsOwners(s: State, s': State, w: Wire, hello: Envelope)
    requires OwnersOk(s, w) && s'.sends == s.sends
    ensures OwnersOk(s', Commit(w, hello, None))
  {
  }

  lemma HelloKeepsHistory(s: State, s': State, c: nat)
    requires At(s, c) && At(s', c) && NothingYet(s, c) && HistoryOk(s, c, s.conns[c]) && s'.sends == s.sends
    requires SameRecord(s.conns[c], s'.conns[c])
    requires s'.conns[c].wire == Commit(s.conns[c].wire, s.hello, None)
    ensures HistoryOk(s', c, s'.conns[c])
  {
    var w, k' := s.conns[c].wire, s'.conns[c];
    HelloIsNoCall(w, s.hello);
    HelloKeepsOwners(s, s', w, s.hello);
    assert CallsOk(s', c, k') && AnswersOk(k');
    assert OnWire(s', k'.acks) == 0;
    assert OnWireOk(s', k');
  }

  function AfterRefusal(s: State, c: nat, call: nat, e: Envelope): State
    requires At(s, c)
  {
    Finish(With(s, c, s.conns[c].(holder := Free)), call, false, e, None)
  }

  function AfterCommit(s: State, c: nat, call: nat, e: Envelope): State
    requires At(s, c)
  {
    With(s, c, s.conns[c].(wire := Commit(s.conns[c].wire, e, Some(call)), writing := true)).(sends := s.sends[call := Writing(c, e)])
  }

  lemma SendEncodeIs(s: State, call: nat, c: nat, e: Envelope)
    requires At(s, c) && call in s.sends && s.sends[call] == Checked(c, e) && !s.conns[c].holder.Free?
    ensures DoSendEncode(s, call) ==
      Some(if s.conns[c].closed || !Sendable(e) then AfterRefusal(s, c, call, e) else AfterCommit(s, c, call, e))
  {
  }

  lemma SendEncodeKeepsHistory(s: State, call: nat)
    requires SendsOk(s) && History(s) && DoSendEncode(s, call).Some?
    ensures History(DoSendEncode(s, call).value)
  {
    var Checked(c, e) := s.sends[call];
    assert SendOk(s, call);
    SendEncodeIs(s, call, c, e);
    if s.conns[c].closed || !Sendable(e) {
      RefusedKeepsHistory(s, c, call, e);
    } else {
      EncodedKeepsHistory(s, c, call, e);
    }
  }

  /** A closed stream or an unsendable envelope: the call ends with nothing committed. */
  lemma RefusedKeepsHistory(s: State, c: nat, call: nat, e: Envelope)
    requires History(s) && At(s, c) && call in s.sends && s.sends[call] == Checked(c, e)
    ensures History(AfterRefusal(s, c, call, e))
  {
    var s' := AfterRefusal(s, c, call, e);
    assert forall other | other in s.sends && other != call :: s'.sends[other] == s.sends[other];
    assert Onward(s.sends[call], s'.sends[call]);
    forall d | 0 <= d < |s'.conns| ensures HistoryOk(s', d, s'.conns[d]) {
      HistoryStays(s, s', d, s.conns[d], s'.conns[d]);
    }
    StageStays(s, s');
  }

  lemma EncodedKeepsHistory(s: State, c: nat, call: nat, e: Envelope)
    requires History(s) && At(s, c) && call in s.sends && s.sends[call] == Checked(c, e)
    ensures History(AfterCommit(s, c, call, e))
  {
    var s' := AfterCommit(s, c, call, e);
    forall d | 0 <= d < |s'.conns| ensures HistoryOk(s', d, s'.conns[d]) {
      if d == c {
        CommitKeepsHistory(s, s', c, call, e);
      } else {
        NotItsAck(s, d, call);
        HistoryStays(s, s', d, s.conns[d], s'.conns[d]);
      }
    }
    StageStays(s, s');
  }

  /** A call that is locked on c is no ack of another connection. */
  lemma NotItsAck(s: State, d: nat, call: nat)
    requires At(s, d) && HistoryOk(s, d, s.conns[d]) && call in s.sends && s.sends[call].Checked? && s.sends[call].c != d
    ensures call !in s.conns[d].acks
  {
    var k := s.conns[d];
    forall j | 0 <= j < |k.acks| ensures k.acks[j] != call {
      assert Sends(s, k.acks[j], d, Acks(k.handled)[j]);
    }
  }

  /** A committed ack is the next one owed: the last ack call is the only one that is not done. */
  lemma CommitKeepsHistory(s: State, s': State, c: nat, call: nat, e: Envelope)
    requires At(s, c) && At(s', c) && HistoryOk(s, c, s.conns[c]) && SameRecord(s.conns[c], s'.conns[c])
    requires call in s.sends && s.sends[call] == Checked(c, e) && s'.sends == s.sends[call := Writing(c, e)]
    requires s'.conns[c].wire == Commit(s.conns[c].wire, e, Some(call))
    ensures HistoryOk(s', c, s'.conns[c])
  {
    var k, n := s.conns[c], |s.conns[c].acks|;
    CommitKeepsCalls(s, s', c, k, call, e);
    CommittedIsNextOwed(s, s', c, k, call, e);
    CommitKeepsOwners(s, s', k.wire, call, e);
    assert OnWireOk(s', s'.conns[c]);
  }

  lemma CommitKeepsCalls(s: State, s': State, c: nat, k: Conn, call: nat, e: Envelope)
    requires CallsOk(s, c, k)
    requires call in s.sends && s.sends[call] == Checked(c, e) && s'.sends == s.sends[call := Writing(c, e)]
    ensures CallsOk(s', c, k)
    ensures forall j | 0 <= j < |k.acks| - 1 :: k.acks[j] != call
    ensures call in k.acks ==> k.acks[|k.acks| - 1] == call && Acks(k.handled)[|k.acks| - 1] == e
  {
    forall j | 0 <= j < |k.acks| ensures Sends(s', k.acks[j], c, Acks(k.handled)[j]) {
      assert Sends(s, k.acks[j], c, Acks(k.handled)[j]);
    }
    forall j | 0 <= j < |k.acks| - 1 ensures Succeeded(s', k.acks[j]) && k.acks[j] != call {
      assert Succeeded(s, k.acks[j]);
    }
    if call in k.acks {
      assert k.acks[|k.acks| - 1] == call;
      assert Sends(s, call, c, Acks(k.handled)[|k.acks| - 1]);
    }
  }

  lemma CommitKeepsOwners(s: State, s': State, w: Wire, call: nat, e: Envelope)
    requires OwnersOk(s, w) && call in s.sends && s.sends[call].Checked?
    requires s'.sends == s.sends[call := Writing(s.sends[call].c, e)]
    ensures OwnersOk(s', Commit(w, e, Some(call)))
  {
  }

  lemma CommittedIsNextOwed(s: State, s': State, c: nat, k: Conn, call: nat, e: Envelope)
    requires CallsOk(s, c, k) && OnWireOk(s, k) && CallsOk(s', c, k)
    requires call in s.sends && s.sends[call] == Checked(c, e) && s'.sends == s.sends[call := Writing(c, e)]
    requires call in k.acks ==> k.acks[|k.acks| - 1] == call && Acks(k.handled)[|k.acks| - 1] == e
    ensures Owned(k.wire.committed + [e], k.wire.owners + [Some(call)], k.acks) == Acks(k.handled)[..OnWire(s', k.acks)]
    ensures OnWire(s, k.acks) <= OnWire(s', k.acks) <= |Acks(k.handled)|
  {
    var n, owed := |k.acks|, Acks(k.handled);
    OwnedAppend(k.wire.committed, k.wire.owners, k.acks, e, Some(call));
    if call in k.acks {
      assert OnWire(s, k.acks) == n - 1 && OnWire(s', k.acks) == n;
      assert owed[..n] == owed[..n - 1] + [e];
    } else {
      assert OnWire(s', k.acks) == OnWire(s, k.acks);
    }
  }

  lemma ReceivedStage(s: State, e: Envelope)
    requires StageOk(s) && DoReceived(s, e).Some?
    ensures StageOk(DoReceived(s, e).value)
  {
    var c := s.accept.c;
    var s' := DoReceived(s, e).value;
    var k := s.conns[c];
    assert s'.conns[c] == k.(handled := k.handled + [e]);
    AcksAppend(k.handled, e);
    forall j | 0 <= j < |k.acks| ensures Succeeded(s', k.acks[j]) {
      assert Succeeded(s, k.acks[j]);
    }
  }

  lemma ReceivedKeepsHistory(s: State, e: Envelope)
    requires History(s) && DoReceived(s, e).Some?
    ensures History(DoReceived(s, e).value)
  {
    var s' := DoReceived(s, e).value;
    var c := s.accept.c;
    ReceivedStage(s, e);
    forall d | 0 <= d < |s'.conns| ensures HistoryOk(s', d, s'.conns[d]) {
      if d == c {
        OneMoreHandled(s, s', c, e);
      } else {
        HistoryStays(s, s', d, s.conns[d], s'.conns[d]);
      }
    }
  }

  lemma OneMoreHandled(s: State, s': State, c: nat, e: Envelope)
    requires At(s, c) && At(s', c) && s'.sends == s.sends && Sendable(e)
    requires HistoryOk(s, c, s.conns[c]) && AllAnswered(s, s.conns[c])
    requires s'.conns[c] == s.conns[c].(handled := s.conns[c].handled + [e])
    ensures HistoryOk(s', c, s'.conns[c])
  {
    var k := s.conns[c];
    AcksAppend(k.handled, e);
    forall j | 0 <= j < |k.acks| ensures Sends(s', k.acks[j], c, Acks(s'.conns[c].handled)[j]) {
      assert Sends(s, k.acks[j], c, Acks(k.handled)[j]);
    }
    forall j | 0 <= j < |k.acks| ensures Succeeded(s', k.acks[j]) {
      assert Succeeded(s, k.acks[j]);
    }
    assert OnWire(s, k.acks) == |k.acks|;
    assert Acks(s'.conns[c].handled)[..|k.acks|] == Acks(k.handled) == Acks(k.handled)[..|k.acks|];
  }

  /** The handler's return is one more answer; with true the loop goes on, all answered. */
  lemma AnswerKeepsHistory(s: State, c: nat, ok: bool)
    requires History(s) && At(s, c) && InHandler(s.conns[c])
    requires ok ==> !CloseRequest(s.conns[c].handled[|s.conns[c].answers|])
    requires ok ==> |s.conns[c].acks| == |Acks(s.conns[c].handled)|
    requires ok ==> forall j | 0 <= j < |s.conns[c].acks| :: Succeeded(s, s.conns[c].acks[j])
    ensures History(Answered(s, c, ok))
  {
    var s' := Answered(s, c, ok);
    var k := s.conns[c];
    forall d | 0 <= d < |s'.conns| ensures HistoryOk(s', d, s'.conns[d]) {
      if d == c {
        OneMoreAnswer(s, s', c, ok);
      } else {
        HistoryStays(s, s', d, s.conns[d], s'.conns[d]);
      }
    }
    if ok {
      forall j | 0 <= j < |k.acks| ensures Succeeded(s', k.acks[j]) {
        assert Succeeded(s, k.acks[j]);
      }
    }
  }

  lemma OneMoreAnswer(s: State, s': State, c: nat, ok: bool)
    requires At(s, c) && At(s', c) && s'.sends == s.sends
    requires HistoryOk(s, c, s.conns[c]) && InHandler(s.conns[c])
    requires ok ==> !CloseRequest(s.conns[c].handled[|s.conns[c].answers|])
    requires s'.conns[c] == s.conns[c].(answers := s.conns[c].answers + [ok])
    ensures HistoryOk(s', c, s'.conns[c])
  {
    var k := s.conns[c];
    forall j | 0 <= j < |k.acks| ensures Sends(s', k.acks[j], c, Acks(k.handled)[j]) {
      assert Sends(s, k.acks[j], c, Acks(k.handled)[j]);
    }
    forall j | 0 <= j < |k.acks| - 1 ensures Succeeded(s', k.acks[j]) {
      assert Succeeded(s, k.acks[j]);
    }
  }

  /** A heartbeat whose send has succeeded leaves everything answered. */
  lemma AckIsDone(s: State, c: nat, call: nat)
    requires SendsWireOk(s) && History(s) && s.accept == Acking(c, call) && call in s.sends && s.sends[call].SendDone?
    ensures !CloseRequest(s.conns[c].handled[|s.conns[c].answers|])
    ensures s.sends[call].ok ==> forall j | 0 <= j < |s.conns[c].acks| :: Succeeded(s, s.conns[c].acks[j])
  {
    assert SendWireOk(s, call) && HistoryOk(s, c, s.conns[c]);
  }

  predicate SendsWireOk(s: State) {
    forall call | call in s.sends :: SendWireOk(s, call)
  }

  lemma AckEndKeepsHistory(s: State)
    requires SendsWireOk(s) && History(s) && DoAckEnd(s).Some?
    ensures History(DoAckEnd(s).value)
  {
    var Acking(c, call) := s.accept;
    AckIsDone(s, c, call);
    AnswerKeepsHistory(s, c, s.sends[call].ok);
  }

  lemma AckBeginStage(s: State, call: nat)
    requires StageOk(s) && DoAckBegin(s, call).Some?
    ensures StageOk(DoAckBegin(s, call).value)
  {
    var c := s.accept.c;
    assert DoAckBegin(s, call).value.conns[c] == s.conns[c].(acks := s.conns[c].acks + [call]);
  }

  lemma AckBeginKeepsHistory(s: State, call: nat)
    requires History(s) && DoAckBegin(s, call).Some?
    ensures History(DoAckBegin(s, call).value)
  {
    var s' := DoAckBegin(s, call).value;
    var Handling(c, e) := s.accept;
    AckBeginStage(s, call);
    forall d | 0 <= d < |s'.conns| ensures HistoryOk(s', d, s'.conns[d]) {
      if d == c {
        OneMoreAck(s, s', c, call, e);
      } else {
        HistoryStays(s, s', d, s.conns[d], s'.conns[d]);
      }
    }
  }

  lemma OneMoreAck(s: State, s': State, c: nat, call: nat, e: Envelope)
    requires At(s, c) && At(s', c) && HistoryOk(s, c, s.conns[c]) && InHandler(s.conns[c])
    requires s.conns[c].handled[|s.conns[c].handled| - 1] == e && Heartbeat(e)
    requires |s.conns[c].acks| + 1 == |Acks(s.conns[c].handled)|
    requires forall j | 0 <= j < |s.conns[c].acks| :: Succeeded(s, s.conns[c].acks[j])
    requires call !in s.sends && s'.sends == s.sends[call := Copied(Some(c), AckFor(e))]
    requires s'.conns[c] == s.conns[c].(acks := s.conns[c].acks + [call])
    ensures HistoryOk(s', c, s'.conns[c])
  {
    var k, k' := s.conns[c], s'.conns[c];
    var n, owed := |k.acks|, Acks(k.handled);
    assert owed[n] == AckFor(e);
    forall j | 0 <= j <= n ensures Sends(s', k'.acks[j], c, owed[j]) {
      if j < n {
        assert Sends(s, k.acks[j], c, owed[j]);
      }
    }
    forall j | 0 <= j < n ensures Succeeded(s', k'.acks[j]) {
      assert Succeeded(s, k.acks[j]);
    }
    OwnedByNewCall(k.wire.committed, k.wire.owners, k.acks, call);
  }

  lemma HandlingKeepsHistory(s: State, step: Step)
    requires Wires(s) && History(s) && Do(s, step).Some?
    requires step.Received? || step.HandlerAnswers? || step.AckBegin? || step.AckEnd?
    ensures History(Do(s, step).value)
  {
    if step.Received? {
      ReceivedKeepsHistory(s, step.e);
    } else if step.HandlerAnswers? {
      AnswerKeepsHistory(s, s.accept.c, step.ok && !CloseRequest(s.accept.e));
    } else if step.AckBegin? {
      AckBeginKeepsHistory(s, step.call);
    } else {
      AckEndKeepsHistory(s);
    }
  }

  lemma EveryStepKeepsHistory(s: State, step: Step)
    requires Control(s) && Wires(s) && History(s) && Do(s, step).Some?
    ensures History(Do(s, step).value)
  {
    if step.Accepted? {
      AcceptedKeepsHistory(s);
    } else if step.HandshakeDone? {
      HandshakeDoneKeepsHistory(s);
    } else if step.SendEncode? {
      SendEncodeKeepsHistory(s, step.call);
    } else if !Silent(step) {
      HandlingKeepsHistory(s, step);
    } else if SendStep(step) {
      SilentSendKeeps(s, step);
    } else if StopStep(step) {
      StopKeepsHistory(s, step);
    } else {
      SilentAcceptKeeps(s, step);
    }
  }

  lemma {:induction false} HistoryReached(hello: Envelope, trace: seq<State>, steps: seq<Step>, k: nat)
    requires Run(Initial(hello), trace, steps) && k <= |steps|
    ensures History(trace[k])
    decreases k
  {
    hide Do;
    if k > 0 {
      HistoryReached(hello, trace, steps, k - 1);
      Reachable(hello, trace, steps, k - 1);
      assert Do(trace[k - 1], steps[k - 1]) == Some(trace[k]);
      EveryStepKeepsHistory(trace[k - 1], steps[k - 1]);
    }
  }

  // ---- the promises ----

  /** The handler's own envelopes on a connection's wire, in its order. */
  function AcksOnWire(k: Conn): seq<Envelope>
    requires |k.wire.owners| == |k.wire.committed|
  {
    Owned(k.wire.committed, k.wire.owners, k.acks)
  }

  /**
   * In every run the handler's sends on a connection's wire, whole or cut, are the acks of the
   * handled heartbeats, in order and one for one, each under its heartbeat's request id; only the ack of the last envelope handled may be
   * missing, when that is a heartbeat whose send is still to come or found the peer stopped.
   */
  lemma AcksAnswerHeartbeats(hello: Envelope, trace: seq<State>, steps: seq<Step>, m: nat, c: nat)
    requires Run(Initial(hello), trace, steps) && m <= |steps| && At(trace[m], c)
    ensures var k := trace[m].conns[c];
      && |k.wire.owners| == |k.wire.committed|
      && AnswersIds(AcksOnWire(k), HeartbeatIds(k.handled)) && |HeartbeatIds(k.handled)| <= |AcksOnWire(k)| + 1
      && (AcksOnWire(k) == Acks(k.handled)
          || (k.handled != [] && Heartbeat(k.handled[|k.handled| - 1]) && AcksOnWire(k) == Acks(k.handled[..|k.handled| - 1])))
  {
    hide Do;
    HistoryReached(hello, trace, steps, m);
    var s, k := trace[m], trace[m].conns[c];
    assert HistoryOk(s, c, k);
    var owed := Acks(k.handled);
    AcksCarryTheIds(k.handled);
    if OnWire(s, k.acks) == |owed| {
      assert owed[..|owed|] == owed;
    } else {
      assert owed == Acks(k.handled[..|k.handled| - 1]) + [AckFor(k.handled[|k.handled| - 1])];
    }
  }

  /**
   * The handler is called again only after true, and never returns true for a close request: a
   * rejected envelope is the last one handled.
   */
  lemma NothingHandledAfterRejection(hello: Envelope, trace: seq<State>, steps: seq<Step>, m: nat, c: nat, j: nat)
    requires Run(Initial(hello), trace, steps) && m <= |steps| && At(trace[m], c) && j < |trace[m].conns[c].answers|
    ensures j < |trace[m].conns[c].handled|
    ensures !trace[m].conns[c].answers[j] ==> |trace[m].conns[c].handled| == j + 1 == |trace[m].conns[c].answers|
    ensures CloseRequest(trace[m].conns[c].handled[j]) ==> !trace[m].conns[c].answers[j]
  {
    hide Do;
    HistoryReached(hello, trace, steps, m);
    assert HistoryOk(trace[m], c, trace[m].conns[c]);
  }

  /** What was handled is, in order and without a gap, what a reader finds first in any bytes that start with its frames. */
  lemma HandledIsReceivedFirst(hello: Envelope, trace: seq<State>, steps: seq<Step>, m: nat, c: nat, later: seq<byte>)
    requires Run(Initial(hello), trace, steps) && m <= |steps| && At(trace[m], c)
    ensures var handled := trace[m].conns[c].handled;
      ParseAll(FramesOf(handled) + later) == handled + ParseAll(later)
  {
    hide Do;
    HistoryReached(hello, trace, steps, m);
    assert HistoryOk(trace[m], c, trace[m].conns[c]);
    ParseAllAfterFrames(trace[m].conns[c].handled, later);
  }
}

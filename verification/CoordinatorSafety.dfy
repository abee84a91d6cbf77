/** What holds in every state any interleaving of accept thread, senders and stoppers reaches. */
module CoordinatorSafety {
  import opened Bytes
  import opened Wrappers
  import opened Protocol
  import opened Framing
  import opened TlsStream
  import opened CoordinatorRuns
  import opened CoordinatorInvariant
  import opened CoordinatorWires

  /** The bytes behind a wire are the frames of what was committed, up to where the last one is cut. */
  ghost predicate BytesOk(w: Wire) {
    && AllSendable(w.committed)
    && w.sent <= |w.frame|
    && FramesOf(w.committed) == w.done + w.frame
    && w.out == w.done + w.frame[..w.sent]
    && (if w.committed == [] then w.frame == [] else w.frame == Frame(w.committed[|w.committed| - 1]))
  }

  lemma CommitKeepsBytes(w: Wire, e: Envelope, owner: Option<nat>)
    requires BytesOk(w) && AllOut(w) && Sendable(e)
    ensures BytesOk(Commit(w, e, owner))
  {
    FramesOfAppend(w.committed, e);
    assert w.frame[..w.sent] == w.frame;
    assert (w.done + w.frame) + Frame(e)[..0] == w.done + w.frame;
  }

  lemma WriteCallKeepsBytes(w: Wire, io: Io)
    requires BytesOk(w) && w.sent < |w.frame|
    ensures BytesOk(WriteCall(w, io))
    ensures w.out <= WriteCall(w, io).out
  {
    if io.Moved? {
      MoreIsOut(w.done, w.frame, w.sent, WriteCall(w, io).sent);
    }
  }

  lemma MoreIsOut(done: seq<byte>, frame: seq<byte>, sent: nat, more: nat)
    requires sent <= more <= |frame|
    ensures done + frame[..sent] + frame[sent..more] == done + frame[..more]
  {
  }

  ghost predicate Invariant(s: State) {
    && Control(s)
    && Wires(s)
    && forall c | 0 <= c < |s.conns| :: BytesOk(s.conns[c].wire)
  }

  /** How one step can change a wire: it commits one envelope, or sends some of the one begun, or leaves it. */
  predicate WireEvolves(s: State, step: Step, k: Conn, k': Conn) {
    || k'.wire == k.wire
    || (!k.closed && AllOut(k.wire) && step.HandshakeDone? && Sendable(s.hello) && k'.wire == Commit(k.wire, s.hello, None))
    || (!k.closed && AllOut(k.wire) && step.SendEncode? && step.call in s.sends && s.sends[step.call].Checked?
        && Sendable(s.sends[step.call].e) && k'.wire == Commit(k.wire, s.sends[step.call].e, Some(step.call)))
    || (!k.closed && !AllOut(k.wire) && (step.HelloWrite? || step.SendWrite?) && k.wire.sent < |k.wire.frame|
        && k'.wire == WriteCall(k.wire, step.io))
  }

  /** How one step can change one connection: its wire grows only while the stream is open. */
  predicate Evolves(s: State, step: Step, k: Conn, k': Conn) {
    && WireEvolves(s, step, k, k')
    && (k.closed ==> k'.closed)
    && (k.ended ==> k'.ended)
    && (k.published ==> k'.published)
    && (k.released ==> k'.released)
    && (k.published && k'.established ==> k.established)
    && (!k.ended && k'.ended ==> k.holder.Free?)
    && (k'.handled == k.handled || (step.Received? && k'.handled == k.handled + [step.e]))
    && (k'.answers == k.answers || step.HandlerAnswers? || step.AckEnd?)
    && (k'.acks == k.acks || step.AckBegin?)
  }

  lemma LoopStepEvolves(s: State, step: Step, c: nat)
    requires LoopStep(step) && Do(s, step).Some? && At(s, c) && ConnOk(s, c) && ConnWireOk(s.conns[c])
    requires AcceptOk(s) && AcceptWireOk(s)
    ensures At(Do(s, step).value, c)
    ensures Evolves(s, step, s.conns[c], Do(s, step).value.conns[c])
  {
  }

  lemma EstablishStepEvolves(s: State, step: Step, c: nat)
    requires EstablishStep(step) && Do(s, step).Some? && At(s, c) && ConnOk(s, c) && ConnWireOk(s.conns[c])
    requires AcceptOk(s) && AcceptWireOk(s)
    ensures At(Do(s, step).value, c)
    ensures Evolves(s, step, s.conns[c], Do(s, step).value.conns[c])
  {
  }

  lemma HandlerStepEvolves(s: State, step: Step, c: nat)
    requires HandlerStep(step) && Do(s, step).Some? && At(s, c)
    requires AcceptOk(s)
    ensures At(Do(s, step).value, c)
    ensures Evolves(s, step, s.conns[c], Do(s, step).value.conns[c])
  {
    if step.Received? || step.HandlerAnswers? || step.AckBegin? || step.AckEnd? {
      HandlingStepEvolves(s, step, c);
    } else if step.Publish? {
      PublishEvolves(s, c);
    } else if step.RunGuard? {
      assert DoRunGuard(s).value.conns == s.conns;
    } else {
      ReadStepEvolves(s, step, c);
    }
  }

  lemma PublishEvolves(s: State, c: nat)
    requires DoPublish(s).Some? && At(s, c) && AcceptOk(s)
    ensures At(DoPublish(s).value, c)
    ensures Evolves(s, Publish, s.conns[c], DoPublish(s).value.conns[c])
  {
  }

  lemma ReadStepEvolves(s: State, step: Step, c: nat)
    requires (step.ReadFails? || step.MarkFailed?) && Do(s, step).Some? && At(s, c) && AcceptOk(s)
    ensures At(Do(s, step).value, c)
    ensures Evolves(s, step, s.conns[c], Do(s, step).value.conns[c])
  {
    if step.ReadFails? {
      assert Evolves(s, step, s.conns[c], DoReadFails(s).value.conns[c]);
    } else {
      assert Evolves(s, step, s.conns[c], DoMarkFailed(s).value.conns[c]);
    }
  }

  /** Receiving, answering and acking touch nothing of a connection but its history. */
  lemma HandlingStepEvolves(s: State, step: Step, c: nat)
    requires step.Received? || step.HandlerAnswers? || step.AckBegin? || step.AckEnd?
    requires Do(s, step).Some? && At(s, c)
    ensures At(Do(s, step).value, c)
    ensures Evolves(s, step, s.conns[c], Do(s, step).value.conns[c])
  {
    if step.Received? {
      assert Evolves(s, step, s.conns[c], DoReceived(s, step.e).value.conns[c]);
    } else if step.HandlerAnswers? {
      assert Evolves(s, step, s.conns[c], DoHandlerAnswers(s, step.ok).value.conns[c]);
    } else if step.AckBegin? {
      assert Evolves(s, step, s.conns[c], DoAckBegin(s, step.call).value.conns[c]);
    } else {
      assert Evolves(s, step, s.conns[c], DoAckEnd(s).value.conns[c]);
    }
  }

  lemma EndStepEvolves(s: State, step: Step, c: nat)
    requires EndStep(step) && Do(s, step).Some? && At(s, c) && ConnOk(s, c) && ConnWireOk(s.conns[c])
    requires AcceptOk(s) && AcceptWireOk(s)
    ensures At(Do(s, step).value, c)
    ensures Evolves(s, step, s.conns[c], Do(s, step).value.conns[c])
  {
    if step.EndLock? {
      assert Evolves(s, step, s.conns[c], DoEndLock(s).value.conns[c]);
    } else if step.EndClose? {
      assert Evolves(s, step, s.conns[c], DoEndClose(s).value.conns[c]);
    } else if step.Release? {
      assert Evolves(s, step, s.conns[c], DoRelease(s).value.conns[c]);
    } else {
      assert DoEndClear(s).value.conns == s.conns;
    }
  }

  lemma SendLockEvolves(s: State, call: nat, c: nat)
    requires DoSendLock(s, call).Some? && At(s, c)
    ensures At(DoSendLock(s, call).value, c)
    ensures Evolves(s, SendLock(call), s.conns[c], DoSendLock(s, call).value.conns[c])
  {
  }

  lemma SendCheckEvolves(s: State, call: nat, c: nat)
    requires DoSendCheck(s, call).Some? && At(s, c)
    ensures At(DoSendCheck(s, call).value, c)
    ensures Evolves(s, SendCheck(call), s.conns[c], DoSendCheck(s, call).value.conns[c])
  {
    var d := s.sends[call].c;
    if s.conns[d].established {
      assert DoSendCheck(s, call).value.conns == s.conns;
    } else if c == d {
      assert DoSendCheck(s, call).value.conns[c] == s.conns[c].(holder := Free);
    } else {
      assert DoSendCheck(s, call).value.conns[c] == s.conns[c];
    }
  }

  lemma MutexStepEvolves(s: State, step: Step, c: nat)
    requires MutexStep(step) && Do(s, step).Some? && At(s, c)
    ensures At(Do(s, step).value, c)
    ensures Evolves(s, step, s.conns[c], Do(s, step).value.conns[c])
  {
    if step.SendLock? {
      SendLockEvolves(s, step.call, c);
    } else if step.SendCheck? {
      SendCheckEvolves(s, step.call, c);
    } else {
      assert DoSendBegin(s, step.call, step.e).value.conns == s.conns;
    }
  }

  lemma StopStepEvolves(s: State, step: Step, c: nat)
    requires StopStep(step) && Do(s, step).Some? && At(s, c)
    ensures At(Do(s, step).value, c)
    ensures Evolves(s, step, s.conns[c], Do(s, step).value.conns[c])
  {
    if step.StopLock? {
      assert Evolves(s, step, s.conns[c], DoStopLock(s, step.call).value.conns[c]);
    } else if step.StopClose? {
      assert Evolves(s, step, s.conns[c], DoStopClose(s, step.call).value.conns[c]);
    } else {
      assert Do(s, step).value.conns == s.conns;
    }
  }

  lemma HelloWriteEvolves(s: State, io: Io, c: nat)
    requires DoHelloWrite(s, io).Some? && At(s, c) && AcceptOk(s)
    ensures At(DoHelloWrite(s, io).value, c)
    ensures Evolves(s, HelloWrite(io), s.conns[c], DoHelloWrite(s, io).value.conns[c])
  {
    if c == s.accept.c {
      assert DoHelloWrite(s, io).value.conns[c] == HelloWritten(s.conns[c], io);
    }
  }

  lemma SendEncodeEvolves(s: State, call: nat, c: nat)
    requires DoSendEncode(s, call).Some? && At(s, c) && ConnWireOk(s.conns[c]) && SendWireOk(s, call)
    ensures At(DoSendEncode(s, call).value, c)
    ensures Evolves(s, SendEncode(call), s.conns[c], DoSendEncode(s, call).value.conns[c])
  {
    var Checked(d, e) := s.sends[call];
    if c == d {
      assert DoSendEncode(s, call).value.conns[c] == Encoded(s.conns[c], call, e);
    }
  }

  lemma WrittenWire(k: Conn, io: Io)
    requires k.wire.sent < |k.wire.frame|
    ensures Written(k, io).wire == if k.closed || io.Failed? then k.wire else WriteCall(k.wire, io)
  {
  }

  lemma WrittenEvolves(s: State, step: Step, k: Conn)
    requires step.SendWrite? && k.wire.sent < |k.wire.frame|
    ensures Evolves(s, step, k, Written(k, step.io))
  {
    WrittenWire(k, step.io);
    assert WireEvolves(s, step, k, Written(k, step.io));
  }

  lemma SendWriteEvolves(s: State, call: nat, io: Io, c: nat)
    requires DoSendWrite(s, call, io).Some? && At(s, c)
    ensures At(DoSendWrite(s, call, io).value, c)
    ensures Evolves(s, SendWrite(call, io), s.conns[c], DoSendWrite(s, call, io).value.conns[c])
  {
    if c == s.sends[call].c {
      assert DoSendWrite(s, call, io).value.conns[c] == Written(s.conns[c], io);
      WrittenEvolves(s, SendWrite(call, io), s.conns[c]);
    } else {
      assert DoSendWrite(s, call, io).value.conns[c] == s.conns[c];
    }
  }

  lemma StepEvolves(s: State, step: Step, c: nat)
    requires Control(s) && Wires(s) && Do(s, step).Some? && At(s, c)
    ensures At(Do(s, step).value, c)
    ensures Evolves(s, step, s.conns[c], Do(s, step).value.conns[c])
  {
    assert ConnOk(s, c) && ConnWireOk(s.conns[c]);
    if SendStep(step) {
      SendStepEvolves(s, step, c);
    } else if StopStep(step) {
      StopStepEvolves(s, step, c);
    } else {
      AcceptStepEvolves(s, step, c);
    }
  }

  lemma SendStepEvolves(s: State, step: Step, c: nat)
    requires SendStep(step) && Do(s, step).Some? && At(s, c) && ConnOk(s, c) && ConnWireOk(s.conns[c])
    requires SendsOk(s) && Wires(s)
    ensures At(Do(s, step).value, c)
    ensures Evolves(s, step, s.conns[c], Do(s, step).value.conns[c])
  {
    assert step.call in s.sends ==> SendOk(s, step.call) && SendWireOk(s, step.call);
    match step
    case SendEncode(call) => SendEncodeEvolves(s, call, c);
    case SendWrite(call, io) => SendWriteEvolves(s, call, io, c);
    case _ => MutexStepEvolves(s, step, c);
  }

  lemma AcceptStepEvolves(s: State, step: Step, c: nat)
    requires !SendStep(step) && !StopStep(step) && Do(s, step).Some?
    requires AcceptOk(s) && AcceptWireOk(s) && At(s, c) && ConnOk(s, c) && ConnWireOk(s.conns[c])
    ensures At(Do(s, step).value, c)
    ensures Evolves(s, step, s.conns[c], Do(s, step).value.conns[c])
  {
    if step.HelloWrite? {
      HelloWriteEvolves(s, step.io, c);
    } else if LoopStep(step) {
      LoopStepEvolves(s, step, c);
    } else if EstablishStep(step) {
      EstablishStepEvolves(s, step, c);
    } else if HandlerStep(step) {
      HandlerStepEvolves(s, step, c);
    } else {
      EndStepEvolves(s, step, c);
    }
  }

  lemma EveryStepKeepsBytes(s: State, step: Step)
    requires Invariant(s) && Do(s, step).Some?
    ensures Invariant(Do(s, step).value)
  {
    var s' := Do(s, step).value;
    EveryStepKeepsControl(s, step);
    EveryStepKeepsWires(s, step);
    forall c | 0 <= c < |s'.conns| ensures BytesOk(s'.conns[c].wire) {
      if c < |s.conns| {
        BytesEvolve(s, step, c);
      } else {
        NewConnection(s, step, c);
      }
    }
  }

  lemma BytesEvolve(s: State, step: Step, c: nat)
    requires Control(s) && Wires(s) && Do(s, step).Some? && At(s, c) && BytesOk(s.conns[c].wire)
    ensures At(Do(s, step).value, c) && BytesOk(Do(s, step).value.conns[c].wire)
  {
    StepEvolves(s, step, c);
    EvolvingKeepsBytes(s, step, s.conns[c], Do(s, step).value.conns[c]);
  }

  lemma EvolvingKeepsBytes(s: State, step: Step, k: Conn, k': Conn)
    requires Evolves(s, step, k, k') && BytesOk(k.wire)
    ensures BytesOk(k'.wire)
  {
    if k'.wire == k.wire {
    } else if step.HandshakeDone? {
      CommitKeepsBytes(k.wire, s.hello, None);
    } else if step.SendEncode? {
      CommitKeepsBytes(k.wire, s.sends[step.call].e, Some(step.call));
    } else {
      WriteCallKeepsBytes(k.wire, step.io);
    }
  }

  lemma NewConnection(s: State, step: Step, c: nat)
    requires Do(s, step).Some? && !At(s, c) && At(Do(s, step).value, c)
    ensures step.Accepted? && BytesOk(Do(s, step).value.conns[c].wire)
  {
    if !LoopStep(step) {
      SameConnections(s, step);
    }
  }

  /** What only start, accept and stop() change. */
  predicate SameService(s: State, s': State) {
    && |s'.conns| == |s.conns| && s'.epoch == s.epoch && s'.stops == s.stops
    && s'.running == s.running && s'.listener == s.listener && s'.joinable == s.joinable && s'.aborted == s.aborted
  }

  lemma SameServiceAfter(s: State, step: Step)
    requires Do(s, step).Some? && !LoopStep(step) && !StopStep(step)
    ensures SameService(s, Do(s, step).value)
  {
    if SendStep(step) {
      SendStepKeepsService(s, step);
    } else if HandlerStep(step) {
      HandlerStepKeepsService(s, step);
    } else if EndStep(step) {
      EndStepKeepsService(s, step);
    } else {
      EstablishStepKeepsService(s, step);
    }
  }

  lemma SendStepKeepsService(s: State, step: Step)
    requires Do(s, step).Some? && SendStep(step)
    ensures SameService(s, Do(s, step).value)
  {
    if step.SendWrite? {
      assert SameService(s, DoSendWrite(s, step.call, step.io).value);
    } else if step.SendEncode? {
      assert SameService(s, DoSendEncode(s, step.call).value);
    } else {
      MutexStepKeepsService(s, step);
    }
  }

  lemma MutexStepKeepsService(s: State, step: Step)
    requires Do(s, step).Some? && MutexStep(step)
    ensures SameService(s, Do(s, step).value)
  {
  }

  lemma HandlerStepKeepsService(s: State, step: Step)
    requires Do(s, step).Some? && HandlerStep(step)
    ensures SameService(s, Do(s, step).value)
  {
    if step.AckBegin? {
      assert SameService(s, DoAckBegin(s, step.call).value);
    } else if step.AckEnd? {
      assert SameService(s, DoAckEnd(s).value);
    } else {
      LoneHandlerStepKeepsService(s, step);
    }
  }

  lemma LoneHandlerStepKeepsService(s: State, step: Step)
    requires Do(s, step).Some? && HandlerStep(step) && !step.AckBegin? && !step.AckEnd?
    ensures SameService(s, Do(s, step).value)
  {
    if step.Received? {
      assert SameService(s, DoReceived(s, step.e).value);
    } else if step.HandlerAnswers? {
      assert SameService(s, DoHandlerAnswers(s, step.ok).value);
    } else {
      PublicHandlerStepKeepsService(s, step);
    }
  }

  lemma PublicHandlerStepKeepsService(s: State, step: Step)
    requires Do(s, step).Some? && (step.Publish? || step.RunGuard? || step.ReadFails? || step.MarkFailed?)
    ensures SameService(s, Do(s, step).value)
  {
    if step.Publish? {
      PublishKeepsService(s);
    } else if step.RunGuard? {
      assert SameService(s, DoRunGuard(s).value);
    } else {
      ReadStepKeepsService(s, step);
    }
  }

  lemma PublishKeepsService(s: State)
    requires DoPublish(s).Some?
    ensures SameService(s, DoPublish(s).value)
  {
    WithKeepsService(s, s.accept.c, DoPublish(s).value.conns[s.accept.c]);
  }

  lemma WithKeepsService(s: State, c: nat, k: Conn)
    requires At(s, c)
    ensures SameService(s, With(s, c, k))
  {
  }

  lemma ReadStepKeepsService(s: State, step: Step)
    requires Do(s, step).Some? && (step.ReadFails? || step.MarkFailed?)
    ensures SameService(s, Do(s, step).value)
  {
  }

  lemma EstablishStepKeepsService(s: State, step: Step)
    requires Do(s, step).Some? && (step.HelloWrite? || EstablishStep(step))
    ensures SameService(s, Do(s, step).value)
  {
    if step.HelloWrite? {
      HelloWriteKeepsService(s, step.io);
    } else if step.HandshakeDone? {
      assert SameService(s, DoHandshakeDone(s).value);
    } else if step.HelloReceived? {
      assert SameService(s, DoHelloReceived(s).value);
    } else {
      assert SameService(s, DoEstablishFails(s).value);
    }
  }

  lemma HelloWriteKeepsService(s: State, io: Io)
    requires DoHelloWrite(s, io).Some?
    ensures SameService(s, DoHelloWrite(s, io).value)
  {
  }

  lemma EndStepKeepsService(s: State, step: Step)
    requires Do(s, step).Some? && EndStep(step)
    ensures SameService(s, Do(s, step).value)
  {
  }

  lemma StopStepMakesNoConnection(s: State, step: Step)
    requires Do(s, step).Some? && StopStep(step)
    ensures |Do(s, step).value.conns| == |s.conns| && Do(s, step).value.epoch == s.epoch
  {
  }

  lemma SameConnections(s: State, step: Step)
    requires Do(s, step).Some? && !LoopStep(step)
    ensures |Do(s, step).value.conns| == |s.conns| && Do(s, step).value.epoch == s.epoch
  {
    if StopStep(step) {
      StopStepMakesNoConnection(s, step);
    } else {
      SameServiceAfter(s, step);
    }
  }

  /** The invariant holds at every moment of every run from the initial state. */
  lemma {:induction false} Reachable(hello: Envelope, trace: seq<State>, steps: seq<Step>, k: nat)
    requires Run(Initial(hello), trace, steps) && k <= |steps|
    ensures Invariant(trace[k])
    decreases k
  {
    hide Do;
    if k == 0 {
      InitialControl(hello);
    } else {
      Reachable(hello, trace, steps, k - 1);
      assert Do(trace[k - 1], steps[k - 1]) == Some(trace[k]);
      EveryStepKeepsBytes(trace[k - 1], steps[k - 1]);
    }
  }
}

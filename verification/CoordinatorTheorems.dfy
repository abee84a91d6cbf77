/** The coordinator's promises, for every interleaving from the initial state. */
module CoordinatorTheorems {
  import opened Bytes
  import opened Wrappers
  import opened Protocol
  import opened Framing
  import opened CoordinatorRuns
  import opened CoordinatorInvariant
  import opened CoordinatorWires
  import opened CoordinatorSafety
  import opened CoordinatorRestart

  /** The committed envelopes whose frames are all out. */
  function WholeOut(w: Wire): seq<Envelope> {
    if AllOut(w) || w.committed == [] then w.committed else w.committed[..|w.committed| - 1]
  }

  /** What is out beyond them. */
  function CutOut(w: Wire): seq<byte>
    requires w.sent <= |w.frame|
  {
    if AllOut(w) then [] else w.frame[..w.sent]
  }

  lemma WireIsFramesAndACut(w: Wire)
    requires BytesOk(w)
    ensures w.out == FramesOf(WholeOut(w)) + CutOut(w)
    ensures CutFrame(CutOut(w)) && WholeOut(w) <= w.committed && AllSendable(WholeOut(w))
  {
    if AllOut(w) {
      assert w.frame[..w.sent] == w.frame;
      assert w.out == FramesOf(w.committed) + [];
    } else {
      var n := |w.committed| - 1;
      assert FramesOf(w.committed) == FramesOf(w.committed[..n]) + Frame(w.committed[n]);
      assert w.done == FramesOf(w.committed)[..|FramesOf(w.committed)| - |w.frame|] == FramesOf(w.committed[..n]);
      assert w.frame[..w.sent] < Frame(w.committed[n]);
    }
  }

  /**
   * Whatever part of a connection's bytes has arrived, cut up as it may be, the envelopes read from
   * it are a prefix of those committed under the write mutex, in that order; when all that is out
   * has arrived they are exactly the ones sent in full.
   */
  lemma ReceiverReadsAPrefixOfCommitted(hello: Envelope, trace: seq<State>, steps: seq<Step>, k: nat, c: nat, arrived: seq<byte>)
    requires Run(Initial(hello), trace, steps) && k <= |steps|
    requires At(trace[k], c) && arrived <= trace[k].conns[c].wire.out
    ensures var w := trace[k].conns[c].wire;
      && ParseAll(arrived) <= w.committed
      && (arrived == w.out ==> ParseAll(arrived) == WholeOut(w))
  {
    hide Do;
    Reachable(hello, trace, steps, k);
    var w := trace[k].conns[c].wire;
    WireIsFramesAndACut(w);
    ArrivedIsPrefixOfSent(WholeOut(w), CutOut(w), arrived);
    if arrived == w.out {
      CutIsNotWhole(CutOut(w), CutOut(w));
      ParseAllReadsFrames(WholeOut(w), CutOut(w));
    }
  }

  /** Only a running write loop or a closed stream leaves a frame cut. */
  lemma CutMeansWritingOrClosed(hello: Envelope, trace: seq<State>, steps: seq<Step>, k: nat, c: nat)
    requires Run(Initial(hello), trace, steps) && k <= |steps| && At(trace[k], c)
    ensures var conn := trace[k].conns[c];
      !AllOut(conn.wire) ==> conn.closed || conn.writing
  {
    hide Do;
    Reachable(hello, trace, steps, k);
    assert ConnWireOk(trace[k].conns[c]);
  }

  /** What the step from moment k on does to one connection. */
  lemma NextMoment(hello: Envelope, trace: seq<State>, steps: seq<Step>, k: nat, c: nat)
    requires Run(Initial(hello), trace, steps) && k < |steps| && At(trace[k], c)
    ensures At(trace[k + 1], c) && Evolves(trace[k], steps[k], trace[k].conns[c], trace[k + 1].conns[c])
  {
    hide Do;
    Reachable(hello, trace, steps, k);
    assert Do(trace[k], steps[k]) == Some(trace[k + 1]);
    StepEvolves(trace[k], steps[k], c);
  }

  /** Once a stream is closed nothing is written on it any more, whatever happens next. */
  lemma {:induction false} NothingIsWrittenAfterClose(hello: Envelope, trace: seq<State>, steps: seq<Step>, i: nat, k: nat, c: nat)
    requires Run(Initial(hello), trace, steps) && i <= k <= |steps|
    requires At(trace[i], c) && trace[i].conns[c].closed
    ensures At(trace[k], c) && trace[k].conns[c].closed && trace[k].conns[c].wire == trace[i].conns[c].wire
    decreases k
  {
    hide Do;
    if i < k {
      NothingIsWrittenAfterClose(hello, trace, steps, i, k - 1, c);
      NextMoment(hello, trace, steps, k - 1, c);
    }
  }

  /** A peer that was published and has lost its established flag never gets it back. */
  lemma {:induction false} EstablishedNeverReturns(hello: Envelope, trace: seq<State>, steps: seq<Step>, i: nat, k: nat, c: nat)
    requires Run(Initial(hello), trace, steps) && i <= k <= |steps|
    requires At(trace[i], c) && trace[i].conns[c].published && !trace[i].conns[c].established
    ensures At(trace[k], c) && trace[k].conns[c].published && !trace[k].conns[c].established
    decreases k
  {
    hide Do;
    if i < k {
      EstablishedNeverReturns(hello, trace, steps, i, k - 1, c);
      NextMoment(hello, trace, steps, k - 1, c);
    }
  }

  /** The connection whose stream a step of a send call reads or writes. */
  function StreamTouched(s: State, step: Step): Option<nat> {
    match step
    case SendEncode(call) => if call in s.sends && s.sends[call].Checked? then Some(s.sends[call].c) else None
    case SendWrite(call, _) => if call in s.sends && s.sends[call].Writing? then Some(s.sends[call].c) else None
    case _ => None
  }

  /** No send touches a stream after a stop() of its peer, and so none after the handler released it. */
  lemma SendsLeaveReleasedStreamsAlone(hello: Envelope, trace: seq<State>, steps: seq<Step>, k: nat)
    requires Run(Initial(hello), trace, steps) && k < |steps|
    requires StreamTouched(trace[k], steps[k]).Some?
    ensures var s, c := trace[k], StreamTouched(trace[k], steps[k]).value;
      At(s, c) && !s.conns[c].released && !s.conns[c].ended && s.conns[c].holder == Sender(steps[k].call)
  {
    hide Do;
    Reachable(hello, trace, steps, k);
    var s := trace[k];
    assert SendOk(s, steps[k].call);
    assert ConnOk(s, s.sends[steps[k].call].c);
  }

  /** stop() gets a peer's write mutex only when no send is between its lock and its end. */
  lemma StopWaitsForSends(hello: Envelope, trace: seq<State>, steps: seq<Step>, k: nat, c: nat, call: nat)
    requires Run(Initial(hello), trace, steps) && k < |steps| && At(trace[k], c) && call in trace[k].sends
    ensures At(trace[k + 1], c)
    ensures !trace[k].conns[c].ended && trace[k + 1].conns[c].ended ==> !Holds(trace[k].sends[call], c)
  {
    hide Do;
    Reachable(hello, trace, steps, k);
    NextMoment(hello, trace, steps, k, c);
    assert SendOk(trace[k], call);
  }

  /** The three active fields are all null, or all of one connection whose establish returned true. */
  lemma ActiveFieldsAgree(hello: Envelope, trace: seq<State>, steps: seq<Step>, k: nat)
    requires Run(Initial(hello), trace, steps) && k <= |steps|
    ensures var s := trace[k];
      && s.activeSocket == s.activeStream == s.activePeer
      && (s.activePeer.Some? ==> At(s, s.activePeer.value) && s.conns[s.activePeer.value].greeted && !s.conns[s.activePeer.value].released)
  {
    hide Do;
    Reachable(hello, trace, steps, k);
    var s := trace[k];
    if s.activePeer.Some? {
      assert ConnOk(s, s.activePeer.value);
    }
  }

  /** One handler at a time: every connection but the accept thread's current one is released. */
  lemma OneHandlerAtATime(hello: Envelope, trace: seq<State>, steps: seq<Step>, k: nat, c: nat)
    requires Run(Initial(hello), trace, steps) && k <= |steps| && At(trace[k], c)
    ensures trace[k].conns[c].released <==> Current(trace[k].accept) != Some(c)
  {
    hide Do;
    Reachable(hello, trace, steps, k);
    assert ConnOk(trace[k], c);
  }

  /** handle_socket never finds another peer active when it publishes: its duplicate branch is dead. */
  lemma DuplicateBranchIsDead(hello: Envelope, trace: seq<State>, steps: seq<Step>, k: nat)
    requires Run(Initial(hello), trace, steps) && k <= |steps| && trace[k].accept.Publishing?
    ensures trace[k].activePeer.None?
  {
    hide Do;
    Reachable(hello, trace, steps, k);
  }

  /** A teardown takes down its own publication or nothing. */
  lemma TeardownClearsItsOwn(hello: Envelope, trace: seq<State>, steps: seq<Step>, k: nat)
    requires Run(Initial(hello), trace, steps) && k < |steps| && steps[k].EndClear?
    ensures var s, s' := trace[k], trace[k + 1];
      && s.accept.Clearing? && s'.activePeer.None? && s'.activeStream.None? && s'.activeSocket.None?
      && (s.activePeer.None? || s.activePeer == Some(s.accept.c))
  {
    hide Do;
    Reachable(hello, trace, steps, k);
    assert Do(trace[k], steps[k]) == Some(trace[k + 1]);
    ClearsItsOwn(trace[k]);
  }

  lemma ClearsItsOwn(s: State)
    requires ActiveOk(s) && Do(s, EndClear).Some?
    ensures var s' := Do(s, EndClear).value;
      && s.accept.Clearing? && s'.activePeer.None? && s'.activeStream.None? && s'.activeSocket.None?
      && (s.activePeer.None? || s.activePeer == Some(s.accept.c))
  {
  }

  lemma CallsStayDone(s: State, step: Step, call: nat)
    requires Do(s, step).Some? && call in s.stops && s.stops[call].StopDone?
    ensures call in Do(s, step).value.stops && Do(s, step).value.stops[call] == s.stops[call]
  {
    if StopStep(step) {
      DoneStopStays(s, step, call);
    } else if LoopStep(step) {
      LoopKeepsStops(s, step);
    } else {
      SameServiceAfter(s, step);
    }
  }

  lemma LoopKeepsStops(s: State, step: Step)
    requires Do(s, step).Some? && LoopStep(step)
    ensures Do(s, step).value.stops == s.stops
  {
  }

  lemma DoneStopStays(s: State, step: Step, call: nat)
    requires StopStep(step) && Do(s, step).Some? && call in s.stops && s.stops[call].StopDone?
    ensures call in Do(s, step).value.stops && Do(s, step).value.stops[call] == s.stops[call]
  {
    if step.StopBegin? || step.StopLock? || step.StopClose? {
      PeerStopLeavesDone(s, step, call);
    } else {
      ServiceStopLeavesDone(s, step, call);
    }
  }

  lemma PeerStopLeavesDone(s: State, step: Step, call: nat)
    requires step.StopBegin? || step.StopLock? || step.StopClose?
    requires Do(s, step).Some? && call in s.stops && s.stops[call].StopDone?
    ensures call in Do(s, step).value.stops && Do(s, step).value.stops[call] == s.stops[call]
  {
  }

  lemma ServiceStopLeavesDone(s: State, step: Step, call: nat)
    requires step.StopExchange? || step.StopJoin? || step.StopReset? || step.StopClear?
    requires Do(s, step).Some? && call in s.stops && s.stops[call].StopDone?
    ensures call in Do(s, step).value.stops && Do(s, step).value.stops[call] == s.stops[call]
  {
  }

  /**
   * When the stop that took the running flag down has returned, nothing is active and no handler is
   * running; and as long as no start succeeds after it, that stays so and nothing is published.
   */
  lemma {:induction false} StopLeavesNothingActive(hello: Envelope, trace: seq<State>, steps: seq<Step>, i: nat, k: nat, call: nat)
    requires Run(Initial(hello), trace, steps) && i <= k <= |steps|
    requires call in trace[i].stops && trace[i].stops[call] == StopDone(Some(trace[i].epoch))
    requires trace[k].epoch == trace[i].epoch
    ensures var s, s' := trace[i], trace[k];
      && Quiet(s') && s'.activePeer.None? && s'.activeStream.None? && s'.activeSocket.None?
      && |s'.conns| == |s.conns|
      && (forall c | 0 <= c < |s'.conns| :: s'.conns[c].released)
      && call in s'.stops && s'.stops[call] == StopDone(Some(s'.epoch))
    decreases k
  {
    hide Do;
    Reachable(hello, trace, steps, k);
    if i < k {
      var m, step := trace[k - 1], steps[k - 1];
      assert Do(m, step) == Some(trace[k]);
      EpochOnlyGrows(hello, trace, steps, i, k - 1);
      NextEpoch(hello, trace, steps, k - 1);
      StopLeavesNothingActive(hello, trace, steps, i, k - 1, call);
      CallsStayDone(m, step, call);
      QuietMakesNoConnection(m, step);
    }
    QuietMeansReleased(trace[k], call);
  }

  lemma QuietMeansReleased(s: State, call: nat)
    requires Invariant(s) && call in s.stops && s.stops[call] == StopDone(Some(s.epoch))
    ensures Quiet(s) && s.activePeer.None? && s.activeStream.None? && s.activeSocket.None?
    ensures forall c | 0 <= c < |s.conns| :: s.conns[c].released
  {
    assert StopOk(s, call);
    forall c | 0 <= c < |s.conns| ensures s.conns[c].released {
      assert ConnOk(s, c);
    }
  }

  lemma QuietMakesNoConnection(s: State, step: Step)
    requires Quiet(s) && Do(s, step).Some?
    ensures |Do(s, step).value.conns| == |s.conns|
  {
    if !LoopStep(step) {
      SameConnections(s, step);
    }
  }

  /**
   * A send that returned true has its envelope on the wire, in full, at a place no other call has;
   * a receiver that gets all that is out reads it exactly there.
   */
  lemma SentMeansDelivered(hello: Envelope, trace: seq<State>, steps: seq<Step>, k: nat, call: nat)
    requires Run(Initial(hello), trace, steps) && k <= |steps|
    requires call in trace[k].sends && trace[k].sends[call].SendDone? && trace[k].sends[call].ok
    ensures var s, pc := trace[k], trace[k].sends[call];
      && pc.slot.Some? && At(s, pc.slot.value.conn)
      && var read := ParseAll(s.conns[pc.slot.value.conn].wire.out);
      && pc.slot.value.index < |read| && read[pc.slot.value.index] == pc.e
      && forall other | other in s.sends && other != call && s.sends[other].SendDone? && s.sends[other].ok ::
           s.sends[other].slot != pc.slot
  {
    hide Do;
    Reachable(hello, trace, steps, k);
    var s := trace[k];
    assert SendWireOk(s, call);
    var slot := s.sends[call].slot.value;
    var w := s.conns[slot.conn].wire;
    ReceiverReadsAPrefixOfCommitted(hello, trace, steps, k, slot.conn, w.out);
    forall other | other in s.sends && other != call && s.sends[other].SendDone? && s.sends[other].ok
      ensures s.sends[other].slot != Some(slot)
    {
      assert SendWireOk(s, other);
    }
  }
}

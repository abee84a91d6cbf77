/**
 * Starting a coordinator again around a stop(). A stop first takes the running flag down, then joins
 * the accept thread, then resets the listener, and holds no lock in between. A start before the join
 * assigns to a joinable thread, which ends the program; one between join and reset loses its listener.
 */
module CoordinatorRestart {
  import opened Wrappers
  import opened Protocol
  import opened CoordinatorRuns
  import opened CoordinatorSafety

  /** Some stop() has taken the running flag down and not yet joined the accept thread. */
  ghost predicate JoinPending(s: State) {
    exists call :: call in s.stops && s.stops[call].Joining?
  }

  /** Some stop() has joined the accept thread and not yet reset the listener. */
  ghost predicate ResetPending(s: State) {
    exists call :: call in s.stops && s.stops[call].Joined?
  }

  predicate JoiningAlone(s: State, call: nat)
    requires call in s.stops && s.stops[call].Joining?
  {
    && !s.running && s.joinable
    && forall other | other in s.stops && s.stops[other].Joining? :: other == call
  }

  /** One stop at a time joins, and one does exactly while there is a thread to join and nothing runs. */
  ghost predicate JoinOk(s: State) {
    && (s.running ==> s.joinable)
    && (forall call | call in s.stops && s.stops[call].Joining? :: JoiningAlone(s, call))
    && (s.joinable && !s.running ==> JoinPending(s))
  }

  /** A running coordinator has its listener, and none that runs has a reset ahead of it. */
  predicate RestartOk(s: State) {
    && (s.running ==> s.listener)
    && (forall call | call in s.stops && s.stops[call].Joined? :: !s.running)
  }

  predicate TouchesRunning(step: Step) {
    step.Start? || step.StopExchange? || step.StopJoin? || step.StopReset?
  }

  predicate OtherStopStep(step: Step) {
    step.StopBegin? || step.StopLock? || step.StopClose? || step.StopClear?
  }

  /** The steps of senders and of the accept thread touch none of this. */
  lemma OthersLeaveItAlone(s: State, step: Step)
    requires Do(s, step).Some? && !TouchesRunning(step) && !OtherStopStep(step)
    ensures var s' := Do(s, step).value;
      s'.running == s.running && s'.listener == s.listener && s'.joinable == s.joinable && s'.stops == s.stops
  {
    if !LoopStep(step) {
      SameServiceAfter(s, step);
    }
  }

  /** The service is as it was, and so is every call that has a join or a reset ahead of it. */
  predicate SamePending(s: State, s': State) {
    && s'.running == s.running && s'.listener == s.listener && s'.joinable == s.joinable
    && (forall call | call in s.stops && (s.stops[call].Joining? || s.stops[call].Joined?) ::
          call in s'.stops && s'.stops[call] == s.stops[call])
    && (forall call | call in s'.stops && (s'.stops[call].Joining? || s'.stops[call].Joined?) ::
          call in s.stops && s.stops[call] == s'.stops[call])
  }

  lemma OtherStopStepsKeep(s: State, step: Step)
    requires OtherStopStep(step) && Do(s, step).Some?
    ensures SamePending(s, Do(s, step).value)
  {
    if step.StopLock? {
      assert SamePending(s, DoStopLock(s, step.call).value);
    } else if step.StopClose? {
      assert SamePending(s, DoStopClose(s, step.call).value);
    } else {
      StopEndsKeep(s, step);
    }
  }

  lemma StopEndsKeep(s: State, step: Step)
    requires (step.StopBegin? || step.StopClear?) && Do(s, step).Some?
    ensures SamePending(s, Do(s, step).value)
  {
  }

  // ---- a start before the join ----

  lemma StartKeepsJoin(s: State)
    requires JoinOk(s) && DoStart(s).Some?
    ensures JoinOk(DoStart(s).value)
  {
  }

  lemma ExchangeKeepsJoin(s: State, call: nat)
    requires JoinOk(s) && DoStopExchange(s, call).Some?
    ensures JoinOk(DoStopExchange(s, call).value)
  {
    var s' := DoStopExchange(s, call).value;
    if s.running {
      assert s'.stops[call].Joining?;
    } else if JoinPending(s) {
      var other :| other in s.stops && s.stops[other].Joining?;
      assert s'.stops[other].Joining?;
    }
  }

  lemma JoinKeepsJoin(s: State, call: nat)
    requires JoinOk(s) && DoStopJoin(s, call).Some?
    ensures JoinOk(DoStopJoin(s, call).value) && !s.running
  {
    assert JoiningAlone(s, call);
  }

  lemma ResetKeepsJoin(s: State, call: nat)
    requires JoinOk(s) && DoStopReset(s, call).Some?
    ensures JoinOk(DoStopReset(s, call).value)
  {
    if JoinPending(s) {
      var other :| other in s.stops && s.stops[other].Joining?;
      assert DoStopReset(s, call).value.stops[other].Joining?;
    }
  }

  lemma EveryStepKeepsJoin(s: State, step: Step)
    requires JoinOk(s) && Do(s, step).Some?
    ensures JoinOk(Do(s, step).value)
  {
    if step.Start? {
      StartKeepsJoin(s);
    } else if step.StopExchange? {
      ExchangeKeepsJoin(s, step.call);
    } else if step.StopJoin? {
      JoinKeepsJoin(s, step.call);
    } else if step.StopReset? {
      ResetKeepsJoin(s, step.call);
    } else if OtherStopStep(step) {
      OtherStopStepsKeep(s, step);
      SameJoins(s, Do(s, step).value);
    } else {
      OthersLeaveItAlone(s, step);
      SameJoins(s, Do(s, step).value);
    }
  }

  lemma SameJoins(s: State, s': State)
    requires JoinOk(s) && s'.running == s.running && s'.joinable == s.joinable
    requires forall call | call in s.stops && s.stops[call].Joining? :: call in s'.stops && s'.stops[call] == s.stops[call]
    requires forall call | call in s'.stops && s'.stops[call].Joining? :: call in s.stops && s.stops[call] == s'.stops[call]
    ensures JoinOk(s')
  {
    if JoinPending(s) {
      var call :| call in s.stops && s.stops[call].Joining?;
      assert s'.stops[call].Joining?;
    }
    forall call | call in s'.stops && s'.stops[call].Joining? ensures JoiningAlone(s', call) {
      assert JoiningAlone(s, call);
    }
  }

  lemma {:induction false} JoinReached(hello: Envelope, trace: seq<State>, steps: seq<Step>, k: nat)
    requires Run(Initial(hello), trace, steps) && k <= |steps|
    ensures JoinOk(trace[k])
    decreases k
  {
    hide Do;
    if k > 0 {
      JoinReached(hello, trace, steps, k - 1);
      assert Do(trace[k - 1], steps[k - 1]) == Some(trace[k]);
      EveryStepKeepsJoin(trace[k - 1], steps[k - 1]);
    }
  }

  /** At any moment of any run a start ends the program exactly if some stop is between its exchange and its join. */
  lemma StartAbortsIff(hello: Envelope, trace: seq<State>, steps: seq<Step>, k: nat)
    requires Run(Initial(hello), trace, steps) && k <= |steps| && !trace[k].aborted
    ensures Do(trace[k], Start).Some?
    ensures Do(trace[k], Start).value.aborted <==> JoinPending(trace[k])
  {
    JoinReached(hello, trace, steps, k);
    if JoinPending(trace[k]) {
      var call :| call in trace[k].stops && trace[k].stops[call].Joining?;
      assert JoiningAlone(trace[k], call);
    }
  }

  lemma OnlyStartAborts(s: State, step: Step)
    requires Do(s, step).Some? && !step.Start?
    ensures !s.aborted && !Do(s, step).value.aborted
  {
    if StopStep(step) || LoopStep(step) {
      ServiceStepsDoNotAbort(s, step);
    } else {
      SameServiceAfter(s, step);
    }
  }

  lemma ServiceStepsDoNotAbort(s: State, step: Step)
    requires Do(s, step).Some? && (StopStep(step) || LoopStep(step)) && !step.Start?
    ensures !s.aborted && !Do(s, step).value.aborted
  {
  }

  /** The step from moment k on ends the program exactly if it is such a start. */
  lemma NextAbortsIff(hello: Envelope, trace: seq<State>, steps: seq<Step>, k: nat)
    requires Run(Initial(hello), trace, steps) && k < |steps|
    ensures !trace[k].aborted
    ensures trace[k + 1].aborted <==> steps[k].Start? && JoinPending(trace[k])
  {
    assert Do(trace[k], steps[k]) == Some(trace[k + 1]);
    if steps[k].Start? {
      StartAbortsIff(hello, trace, steps, k);
    } else {
      OnlyStartAborts(trace[k], steps[k]);
    }
  }

  /** So a run has ended the program exactly if one of its starts fell between a stop's exchange and its join. */
  lemma AbortedIff(hello: Envelope, trace: seq<State>, steps: seq<Step>, k: nat)
    requires Run(Initial(hello), trace, steps) && k <= |steps|
    ensures trace[k].aborted <==> exists i | 0 <= i < k :: steps[i].Start? && JoinPending(trace[i])
  {
    hide Do;
    forall i | 0 <= i < k && steps[i].Start? && JoinPending(trace[i])
      ensures i == k - 1
    {
      NextAbortsIff(hello, trace, steps, i);
      if i < k - 1 {
        NextAbortsIff(hello, trace, steps, i + 1);
      }
    }
    if k > 0 {
      NextAbortsIff(hello, trace, steps, k - 1);
      assert trace[k].aborted <==> steps[k - 1].Start? && JoinPending(trace[k - 1]);
    }
  }

  // ---- a start between join and reset ----

  /** No start in the run opens a listener while a reset is pending. */
  ghost predicate Orderly(trace: seq<State>, steps: seq<Step>)
    requires |trace| == |steps| + 1
  {
    forall k | 0 <= k < |steps| :: steps[k].Start? && ResetPending(trace[k]) ==> trace[k].running
  }

  lemma RunningStepsKeep(s: State, step: Step)
    requires JoinOk(s) && RestartOk(s) && TouchesRunning(step) && Do(s, step).Some?
    requires step.Start? && ResetPending(s) ==> s.running
    ensures RestartOk(Do(s, step).value)
  {
    match step
    case Start => assert !s.running ==> !ResetPending(s);
    case StopExchange(call) =>
    case StopJoin(call) => JoinKeepsJoin(s, call);
    case StopReset(call) =>
  }

  lemma OrderlyStepKeeps(s: State, step: Step)
    requires JoinOk(s) && RestartOk(s) && Do(s, step).Some?
    requires step.Start? && ResetPending(s) ==> s.running
    ensures RestartOk(Do(s, step).value)
  {
    if TouchesRunning(step) {
      RunningStepsKeep(s, step);
    } else if OtherStopStep(step) {
      OtherStopStepsKeep(s, step);
    } else {
      OthersLeaveItAlone(s, step);
    }
  }

  lemma NextIsOrderly(hello: Envelope, trace: seq<State>, steps: seq<Step>, k: nat)
    requires Run(Initial(hello), trace, steps) && Orderly(trace, steps) && k < |steps|
    requires RestartOk(trace[k])
    ensures RestartOk(trace[k + 1])
  {
    hide Do;
    JoinReached(hello, trace, steps, k);
    assert Do(trace[k], steps[k]) == Some(trace[k + 1]);
    OrderlyStepKeeps(trace[k], steps[k]);
  }

  /** In an orderly run a running coordinator has its listener. */
  lemma {:induction false} OrderlyKeepsListener(hello: Envelope, trace: seq<State>, steps: seq<Step>, k: nat)
    requires Run(Initial(hello), trace, steps) && Orderly(trace, steps) && k <= |steps|
    ensures RestartOk(trace[k])
    ensures trace[k].running ==> trace[k].listener
    decreases k
  {
    hide Do;
    if k > 0 {
      OrderlyKeepsListener(hello, trace, steps, k - 1);
      NextIsOrderly(hello, trace, steps, k - 1);
    }
  }

  lemma ListenerComesWithEpoch(s: State, step: Step)
    requires Do(s, step).Some?
    ensures s.epoch <= Do(s, step).value.epoch
    ensures !s.listener && Do(s, step).value.epoch == s.epoch ==> !Do(s, step).value.listener
  {
    if StopStep(step) {
      StopsOpenNothing(s, step);
    } else if LoopStep(step) {
      LoopStepsOpenNothing(s, step);
    } else {
      SameServiceAfter(s, step);
    }
  }

  lemma StopsOpenNothing(s: State, step: Step)
    requires Do(s, step).Some? && StopStep(step)
    ensures Do(s, step).value.epoch == s.epoch
    ensures !s.listener ==> !Do(s, step).value.listener
  {
  }

  lemma LoopStepsOpenNothing(s: State, step: Step)
    requires Do(s, step).Some? && LoopStep(step)
    ensures s.epoch <= Do(s, step).value.epoch
    ensures !s.listener && Do(s, step).value.epoch == s.epoch ==> !Do(s, step).value.listener
  {
  }

  lemma NextEpoch(hello: Envelope, trace: seq<State>, steps: seq<Step>, k: nat)
    requires Run(Initial(hello), trace, steps) && k < |steps|
    ensures trace[k].epoch <= trace[k + 1].epoch
    ensures !trace[k].listener && trace[k + 1].epoch == trace[k].epoch ==> !trace[k + 1].listener
  {
    hide Do;
    assert Do(trace[k], steps[k]) == Some(trace[k + 1]);
    ListenerComesWithEpoch(trace[k], steps[k]);
  }

  lemma {:induction false} EpochOnlyGrows(hello: Envelope, trace: seq<State>, steps: seq<Step>, i: nat, k: nat)
    requires Run(Initial(hello), trace, steps) && i <= k <= |steps|
    ensures trace[i].epoch <= trace[k].epoch
    ensures !trace[i].listener && trace[k].epoch == trace[i].epoch ==> !trace[k].listener
    decreases k
  {
    hide Do;
    if i < k {
      EpochOnlyGrows(hello, trace, steps, i, k - 1);
      NextEpoch(hello, trace, steps, k - 1);
    }
  }

  lemma CheckWithoutListener(s: State)
    requires Do(s, AcceptCheck).Some? && !s.listener
    ensures Do(s, AcceptCheck).value.accept.Exited?
  {
  }

  /** Without a listener there is none until a later start, and the accept thread exits at its next check. */
  lemma NoListenerUntilStart(hello: Envelope, trace: seq<State>, steps: seq<Step>, i: nat, k: nat)
    requires Run(Initial(hello), trace, steps) && i <= k <= |steps|
    requires !trace[i].listener && trace[k].epoch == trace[i].epoch
    ensures !trace[k].listener
    ensures k < |steps| && steps[k].AcceptCheck? ==> trace[k + 1].accept.Exited?
  {
    EpochOnlyGrows(hello, trace, steps, i, k);
    if k < |steps| && steps[k].AcceptCheck? {
      assert Do(trace[k], steps[k]) == Some(trace[k + 1]);
      CheckWithoutListener(trace[k]);
    }
  }

  /**
   * And wherever a start does open a listener while a reset is pending, that reset takes it away:
   * the running flag stays up without a listener. The new accept thread can be before its check
   * and then exits.
   */
  lemma StartInsideStopLosesListener(s: State, call: nat) returns (trace: seq<State>)
    requires !s.aborted && !s.running && !s.joinable && call in s.stops && s.stops[call].Joined?
    ensures Run(s, trace, [Start, StopReset(call), AcceptCheck])
    ensures trace[3].running && !trace[3].listener && trace[3].accept.Exited?
  {
    var s1 := Do(s, Start).value;
    var s2 := StopAt(s1.(listener := false), call, ClearingAll(Some(s.stops[call].epoch)));
    trace := [s, s1, s2, s2.(accept := Exited)];
  }

  /** Or it can be past its check already, and then still accepts a connection. */
  lemma StartInsideStopMayStillAccept(s: State, call: nat) returns (trace: seq<State>)
    requires !s.aborted && !s.running && !s.joinable && call in s.stops && s.stops[call].Joined?
    ensures Run(s, trace, [Start, AcceptCheck, StopReset(call), Accepted])
    ensures trace[4].running && !trace[4].listener && trace[4].accept.Establishing?
  {
    var s1 := Do(s, Start).value;
    var s2 := s1.(accept := Selecting);
    var s3 := StopAt(s2.(listener := false), call, ClearingAll(Some(s.stops[call].epoch)));
    trace := [s, s1, s2, s3, DoAccepted(s3).value];
  }

  /** A stop with nothing active, up to the exchange of the running flag. */
  lemma StopUpToExchange(s: State, call: nat)
    requires !s.aborted && s.running && s.activePeer.None? && call !in s.stops
    ensures var begun := StopAt(s, call, StopCopied(None));
      var stopped := StopAt(begun, call, PeerStopped);
      && Do(s, StopBegin(call)) == Some(begun)
      && Do(begun, StopLock(call)) == Some(stopped)
      && Do(stopped, StopExchange(call)) == Some(StopAt(stopped.(running := false), call, Joining(s.epoch)))
  {
  }

  lemma JoinAfterExchange(s: State, call: nat)
    requires !s.aborted && !s.running && s.accept.Looping? && call in s.stops && s.stops[call].Joining?
    ensures Do(s, AcceptCheck) == Some(s.(accept := Exited))
    ensures Do(s.(accept := Exited), StopJoin(call)) ==
      Some(StopAt(s.(accept := Exited, joinable := false), call, Joined(s.stops[call].epoch)))
  {
  }

  const FIRST_STOP: seq<Step> := [Start, StopBegin(0), StopLock(0), StopExchange(0), AcceptCheck, StopJoin(0)]
  const START_BEFORE_JOIN: seq<Step> := [Start, StopBegin(0), StopLock(0), StopExchange(0), Start]

  /** The coordinator's states in a first start and stop with nothing active. */
  function Started(hello: Envelope): State {
    Initial(hello).(running := true, listener := true, joinable := true, epoch := 1, accept := Looping)
  }

  function StopBegun(hello: Envelope): State {
    StopAt(Started(hello), 0, StopCopied(None))
  }

  function Exchanged(hello: Envelope): State {
    StopAt(StopAt(StopBegun(hello), 0, PeerStopped).(running := false), 0, Joining(1))
  }

  lemma UpToExchange(hello: Envelope)
    ensures Do(Initial(hello), Start) == Some(Started(hello))
    ensures Do(Started(hello), StopBegin(0)) == Some(StopBegun(hello))
    ensures Do(StopBegun(hello), StopLock(0)) == Some(StopAt(StopBegun(hello), 0, PeerStopped))
    ensures Do(StopAt(StopBegun(hello), 0, PeerStopped), StopExchange(0)) == Some(Exchanged(hello))
  {
    StopUpToExchange(Started(hello), 0);
  }

  /** A start right after a stop's exchange ends the program. */
  lemma StartBeforeJoinAborts(hello: Envelope) returns (trace: seq<State>)
    ensures Run(Initial(hello), trace, START_BEFORE_JOIN) && trace[5].aborted
  {
    UpToExchange(hello);
    var s4 := Exchanged(hello);
    assert Do(s4, Start) == Some(s4.(aborted := true));
    trace := [Initial(hello), Started(hello), StopBegun(hello), StopAt(StopBegun(hello), 0, PeerStopped), s4, s4.(aborted := true)];
  }

  /** And a reset comes to be pending: a start and a stop, up to the stop's join. */
  lemma ResetPendingIsReached(hello: Envelope) returns (trace: seq<State>)
    ensures Run(Initial(hello), trace, FIRST_STOP)
    ensures var s := trace[6];
      !s.aborted && !s.running && !s.joinable && 0 in s.stops && s.stops[0].Joined?
  {
    UpToExchange(hello);
    var s4 := Exchanged(hello);
    JoinAfterExchange(s4, 0);
    var s5 := s4.(accept := Exited);
    trace := [Initial(hello), Started(hello), StopBegun(hello), StopAt(StopBegun(hello), 0, PeerStopped), s4, s5,
              StopAt(s5.(joinable := false), 0, Joined(1))];
  }
}

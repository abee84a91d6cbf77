/** The session lifecycle as the Windows side implements it. */
module Session {
  import opened Wrappers

  datatype State =
    | Idle | Discovering | Connecting | TlsHandshaking | IdentityChecking
    | PairingRequired | Established | Closing | Failed

  datatype Event =
    | BeginDiscovery | CandidateFound | ConnectStarted | TlsStarted | TlsSucceeded | IdentityMatches
    | PairingNeeded | PairingApproved | NowEstablished | Failure | Stop | Closed

  datatype Machine = Machine(state: State, stopped: bool)

  const START := Machine(Idle, false)

  /** The transition table, for everything but Stop and Closed. */
  function Target(state: State, event: Event): Option<State> {
    match (state, event)
    case (Idle, BeginDiscovery) => Some(Discovering)
    case (Discovering, CandidateFound) => Some(Connecting)
    case (Connecting, TlsStarted) => Some(TlsHandshaking)
    case (TlsHandshaking, TlsSucceeded) => Some(IdentityChecking)
    case (IdentityChecking, IdentityMatches) => Some(Established)
    case (IdentityChecking, PairingNeeded) => Some(PairingRequired)
    case (PairingRequired, PairingApproved) => Some(Established)
    case (TlsHandshaking, Failure) => Some(Failed)
    case (IdentityChecking, Failure) => Some(Failed)
    case (PairingRequired, Failure) => Some(Failed)
    case (Established, Failure) => Some(Failed)
    case _ => None
  }

  function AfterStop(m: Machine): Machine {
    if m.stopped then m else Machine(if m.state.Idle? then Idle else Closing, true)
  }

  predicate Accepts(m: Machine, event: Event) {
    || event.Stop?
    || (event.Closed? && m.state.Closing?)
    || ((!m.stopped || event.BeginDiscovery?) && Target(m.state, event).Some?)
  }

  function Step(m: Machine, event: Event): Machine {
    if event.Stop? then AfterStop(m)
    else if event.Closed? && m.state.Closing? then Machine(Idle, true)
    else if Accepts(m, event) then Machine(Target(m.state, event).value, m.stopped && !event.BeginDiscovery?)
    else m
  }

  /** Why an event is refused: the session is stopped, or the state expects other events. */
  datatype Reason = SessionIsStopped | Unexpected(state: State)

  function ReasonFor(m: Machine, event: Event): Reason {
    if m.stopped && !event.BeginDiscovery? then SessionIsStopped else Unexpected(m.state)
  }

  /** The machine as it runs. */
  class StateMachine {
    var state: State
    var stopped: bool

    function Now(): Machine
      reads this
    {
      Machine(state, stopped)
    }

    constructor ()
      ensures Now() == START
    {
      state := Idle;
      stopped := false;
    }

    method StopNow()
      modifies this
      ensures Now() == AfterStop(old(Now()))
    {
      if stopped {
        return;
      }
      stopped := true;
      if state != Idle {
        state := Closing;
      }
    }

    /** False leaves the machine as it was and gives a reason. */
    method Apply(event: Event) returns (ok: bool, reason: Option<Reason>)
      modifies this
      ensures ok <==> Accepts(old(Now()), event)
      ensures Now() == Step(old(Now()), event)
      ensures reason == if ok then None else Some(ReasonFor(old(Now()), event))
    {
      if event == Stop {
        StopNow();
        return true, None;
      }
      if event == Closed && state == Closing {
        state := Idle;
        stopped := true;
        return true, None;
      }
      if stopped && event != BeginDiscovery {
        return false, Some(SessionIsStopped);
      }
      ok := true;
      match state {
        case Idle =>
          if event == BeginDiscovery {
            state := Discovering;
            stopped := false;
          } else {
            ok := false;
          }
        case Discovering =>
          if event == CandidateFound {
            state := Connecting;
          } else {
            ok := false;
          }
        case Connecting =>
          if event == TlsStarted {
            state := TlsHandshaking;
          } else {
            ok := false;
          }
        case TlsHandshaking =>
          if event == TlsSucceeded {
            state := IdentityChecking;
          } else if event == Failure {
            state := Failed;
          } else {
            ok := false;
          }
        case IdentityChecking =>
          if event == IdentityMatches {
            state := Established;
          } else if event == PairingNeeded {
            state := PairingRequired;
          } else if event == Failure {
            state := Failed;
          } else {
            ok := false;
          }
        case PairingRequired =>
          if event == PairingApproved {
            state := Established;
          } else if event == Failure {
            state := Failed;
          } else {
            ok := false;
          }
        case Established =>
          if event == Failure {
            state := Failed;
          } else {
            ok := false;
          }
        case Closing =>
          ok := false;
        case Failed =>
          ok := false;
      }
      reason := if ok then None else Some(Unexpected(state));
    }
  }

  // ---- whole runs ----

  function Run(m: Machine, events: seq<Event>): Machine {
    if events == [] then m else Step(Run(m, events[..|events| - 1]), events[|events| - 1])
  }

  /** The events accepted since the last accepted BeginDiscovery, if one was accepted. */
  function SinceBegin(events: seq<Event>): Option<seq<Event>> {
    if events == [] then None
    else
      var front, event := events[..|events| - 1], events[|events| - 1];
      if !Accepts(Run(START, front), event) then SinceBegin(front)
      else if event.BeginDiscovery? then Some([])
      else match SinceBegin(front)
        case None => None
        case Some(es) => Some(es + [event])
  }

  const TO_IDENTITY: seq<Event> := [CandidateFound, TlsStarted, TlsSucceeded]

  /** The ways from BeginDiscovery into each state short of failure and stop. */
  predicate WayInto(state: State, es: seq<Event>) {
    match state
    case Discovering => es == []
    case Connecting => es == [CandidateFound]
    case TlsHandshaking => es == [CandidateFound, TlsStarted]
    case IdentityChecking => es == TO_IDENTITY
    case PairingRequired => es == TO_IDENTITY + [PairingNeeded]
    case Established => es == TO_IDENTITY + [IdentityMatches] || es == TO_IDENTITY + [PairingNeeded, PairingApproved]
    case Idle => true
    case Closing => true
    case Failed => true
  }

  lemma {:induction false} StoppedStates(events: seq<Event>)
    ensures Run(START, events).stopped ==> Run(START, events).state in {Idle, Closing}
    ensures Run(START, events).state.Closing? ==> Run(START, events).stopped
  {
    if events != [] {
      StoppedStates(events[..|events| - 1]);
    }
  }

  lemma {:induction false} EveryStateHasItsWay(events: seq<Event>)
    ensures var m := Run(START, events);
      m.state !in {Idle, Closing, Failed} ==> SinceBegin(events).Some? && WayInto(m.state, SinceBegin(events).value)
  {
    if events != [] {
      EveryStateHasItsWay(events[..|events| - 1]);
      StoppedStates(events[..|events| - 1]);
      assert TO_IDENTITY == [CandidateFound, TlsStarted] + [TlsSucceeded];
      assert TO_IDENTITY + [PairingNeeded, PairingApproved] == TO_IDENTITY + [PairingNeeded] + [PairingApproved];
    }
  }

  /** A session is established only by a TLS success and then a matching identity or an approved pairing. */
  lemma EstablishedOnlyThroughIdentity(events: seq<Event>)
    requires Run(START, events).state.Established?
    ensures SinceBegin(events) == Some([CandidateFound, TlsStarted, TlsSucceeded, IdentityMatches])
      || SinceBegin(events) == Some([CandidateFound, TlsStarted, TlsSucceeded, PairingNeeded, PairingApproved])
  {
    EveryStateHasItsWay(events);
    assert TO_IDENTITY + [IdentityMatches] == [CandidateFound, TlsStarted, TlsSucceeded, IdentityMatches];
    assert TO_IDENTITY + [PairingNeeded, PairingApproved] == [CandidateFound, TlsStarted, TlsSucceeded, PairingNeeded, PairingApproved];
  }

  function Changes(events: seq<Event>): nat {
    if events == [] then 0
    else
      var front := events[..|events| - 1];
      Changes(front) + if Run(START, events).state != Run(START, front).state then 1 else 0
  }

  function Begins(events: seq<Event>): nat {
    if events == [] then 0
    else
      var front, event := events[..|events| - 1], events[|events| - 1];
      Begins(front) + if event.BeginDiscovery? && Accepts(Run(START, front), event) then 1 else 0
  }

  /** How many more changes a state can see before the next BeginDiscovery. */
  function Potential(state: State): nat {
    match state
    case Discovering => 8
    case Connecting => 7
    case TlsHandshaking => 6
    case IdentityChecking => 5
    case PairingRequired => 4
    case Established => 3
    case Failed => 2
    case Closing => 1
    case Idle => 0
  }

  lemma {:induction false} ChangesArePaidFor(events: seq<Event>)
    ensures Changes(events) + Potential(Run(START, events).state) <= 9 * Begins(events)
  {
    if events != [] {
      ChangesArePaidFor(events[..|events| - 1]);
    }
  }

  lemma OneMore(events: seq<Event>, event: Event)
    ensures Run(START, events + [event]) == Step(Run(START, events), event)
    ensures Changes(events + [event]) == Changes(events) + if Run(START, events + [event]).state != Run(START, events).state then 1 else 0
    ensures Begins(events + [event]) == Begins(events) + if event.BeginDiscovery? && Accepts(Run(START, events), event) then 1 else 0
  {
    assert (events + [event])[..|events|] == events;
  }

  /** The longest life: the events, and the states in the order of falling potential. */
  const LONGEST_LIFE: seq<Event> :=
    [BeginDiscovery, CandidateFound, TlsStarted, TlsSucceeded, PairingNeeded, PairingApproved, Failure, Stop, Closed]

  function Stage(i: nat): State
    requires i <= 9
  {
    [Idle, Discovering, Connecting, TlsHandshaking, IdentityChecking, PairingRequired, Established, Failed, Closing, Idle][i]
  }

  lemma NextStage(i: nat)
    requires i < 9
    ensures Step(Machine(Stage(i), i >= 8), LONGEST_LIFE[i]) == Machine(Stage(i + 1), i + 1 >= 8)
    ensures LONGEST_LIFE[i].BeginDiscovery? <==> i == 0
    ensures i == 0 ==> Accepts(Machine(Stage(i), false), LONGEST_LIFE[i])
    ensures Stage(i + 1) != Stage(i)
  {
  }

  /** Nine changes for one BeginDiscovery do happen: the bound cannot be lowered. */
  lemma NineChangesHappen() returns (events: seq<Event>)
    ensures Changes(events) == 9 && Begins(events) == 1
  {
    events := [];
    for i := 0 to 9
      invariant Changes(events) == i && Begins(events) == if i == 0 then 0 else 1
      invariant Run(START, events) == Machine(Stage(i), i >= 8)
    {
      NextStage(i);
      OneMore(events, LONGEST_LIFE[i]);
      events := events + [LONGEST_LIFE[i]];
    }
  }
}

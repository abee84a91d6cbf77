/** The session lifecycle as the Android side implements it, and its agreement with the Windows one. */
module SessionKotlin {
  import Cpp = Session
  import opened Session

  datatype SessionEvent =
    | BEGIN_DISCOVERY | CANDIDATE_FOUND | TLS_STARTED | TLS_SUCCEEDED | IDENTITY_MATCHES
    | PAIRING_NEEDED | PAIRING_APPROVED | FAILURE | STOP | CLOSED

  /** State, stop flag and verdict after an event. */
  datatype Outcome = Outcome(machine: Machine, ok: bool)

  function KStop(m: Machine): Machine {
    if m.stopped then m else Machine(if m.state == Idle then Idle else Closing, true)
  }

  function KApply(m: Machine, event: SessionEvent): Outcome {
    if event == STOP then Outcome(KStop(m), true)
    else if event == CLOSED && m.state == Closing then Outcome(Machine(Idle, true), true)
    else if m.stopped && event != BEGIN_DISCOVERY then Outcome(m, false)
    else
      match m.state
      case Idle => if event == BEGIN_DISCOVERY then Outcome(Machine(Discovering, false), true) else Outcome(m, false)
      case Discovering => if event == CANDIDATE_FOUND then Outcome(m.(state := Connecting), true) else Outcome(m, false)
      case Connecting => if event == TLS_STARTED then Outcome(m.(state := TlsHandshaking), true) else Outcome(m, false)
      case TlsHandshaking =>
        if event == TLS_SUCCEEDED then Outcome(m.(state := IdentityChecking), true)
        else if event == FAILURE then Outcome(m.(state := Failed), true) else Outcome(m, false)
      case IdentityChecking =>
        if event == IDENTITY_MATCHES then Outcome(m.(state := Established), true)
        else if event == PAIRING_NEEDED then Outcome(m.(state := PairingRequired), true)
        else if event == FAILURE then Outcome(m.(state := Failed), true) else Outcome(m, false)
      case PairingRequired =>
        if event == PAIRING_APPROVED then Outcome(m.(state := Established), true)
        else if event == FAILURE then Outcome(m.(state := Failed), true) else Outcome(m, false)
      case Established => if event == FAILURE then Outcome(m.(state := Failed), true) else Outcome(m, false)
      case Closing => Outcome(m, false)
      case Failed => Outcome(m, false)
  }

  class SessionStateMachine {
    var state: State
    var stopped: bool

    function Now(): Machine
      reads this
    {
      Machine(state, stopped)
    }

    constructor ()
      ensures Now() == START
    {
      state := Idle;
      stopped := false;
    }

    method StopNow()
      modifies this
      ensures Now() == KStop(old(Now()))
    {
      if stopped {
        return;
      }
      stopped := true;
      if state != Idle {
        state := Closing;
      }
    }

    method Apply(event: SessionEvent) returns (ok: bool)
      modifies this
      ensures Outcome(Now(), ok) == KApply(old(Now()), event)
    {
      if event == STOP {
        StopNow();
        return true;
      }
      if event == CLOSED && state == Closing {
        state := Idle;
        stopped := true;
        return true;
      }
      if stopped && event != BEGIN_DISCOVERY {
        return false;
      }
      match state {
        case Idle =>
          if event == BEGIN_DISCOVERY {
            state := Discovering;
            stopped := false;
          } else {
            return false;
          }
        case Discovering =>
          if event == CANDIDATE_FOUND {
            state := Connecting;
          } else {
            return false;
          }
        case Connecting =>
          if event == TLS_STARTED {
            state := TlsHandshaking;
          } else {
            return false;
          }
        case TlsHandshaking =>
          if event == TLS_SUCCEEDED {
            state := IdentityChecking;
          } else if event == FAILURE {
            state := Failed;
          } else {
            return false;
          }
        case IdentityChecking =>
          if event == IDENTITY_MATCHES {
            state := Established;
          } else if event == PAIRING_NEEDED {
            state := PairingRequired;
          } else if event == FAILURE {
            state := Failed;
          } else {
            return false;
          }
        case PairingRequired =>
          if event == PAIRING_APPROVED {
            state := Established;
          } else if event == FAILURE {
            state := Failed;
          } else {
            return false;
          }
        case Established =>
          if event == FAILURE {
            state := Failed;
          } else {
            return false;
          }
        case Closing =>
          return false;
        case Failed =>
          return false;
      }
      return true;
    }
  }

  /** The Windows event of the same name. */
  function Named(event: SessionEvent): Event {
    match event
    case BEGIN_DISCOVERY => BeginDiscovery
    case CANDIDATE_FOUND => CandidateFound
    case TLS_STARTED => TlsStarted
    case TLS_SUCCEEDED => TlsSucceeded
    case IDENTITY_MATCHES => IdentityMatches
    case PAIRING_NEEDED => PairingNeeded
    case PAIRING_APPROVED => PairingApproved
    case FAILURE => Failure
    case STOP => Stop
    case CLOSED => Closed
  }

  predicate Shared(event: Event) {
    !event.ConnectStarted? && !event.NowEstablished?
  }

  function Shares(event: Event): (e: SessionEvent)
    requires Shared(event)
    ensures Named(e) == event
  {
    match event
    case BeginDiscovery => BEGIN_DISCOVERY
    case CandidateFound => CANDIDATE_FOUND
    case TlsStarted => TLS_STARTED
    case TlsSucceeded => TLS_SUCCEEDED
    case IdentityMatches => IDENTITY_MATCHES
    case PairingNeeded => PAIRING_NEEDED
    case PairingApproved => PAIRING_APPROVED
    case Failure => FAILURE
    case Stop => STOP
    case Closed => CLOSED
  }

  /** A trace without the two events only the Windows side has. */
  function Erased(events: seq<Event>): seq<SessionEvent> {
    if events == [] then []
    else
      var event := events[|events| - 1];
      Erased(events[..|events| - 1]) + if Shared(event) then [Shares(event)] else []
  }

  function KRun(m: Machine, events: seq<SessionEvent>): Machine {
    if events == [] then m else KApply(KRun(m, events[..|events| - 1]), events[|events| - 1]).machine
  }

  function KVerdicts(m: Machine, events: seq<SessionEvent>): seq<bool> {
    if events == [] then []
    else KVerdicts(m, events[..|events| - 1]) + [KApply(KRun(m, events[..|events| - 1]), events[|events| - 1]).ok]
  }

  /** The Windows verdicts on the shared events of a trace, in order. */
  function SharedVerdicts(m: Machine, events: seq<Event>): seq<bool> {
    if events == [] then []
    else
      var front, event := events[..|events| - 1], events[|events| - 1];
      SharedVerdicts(m, front) + if Shared(event) then [Accepts(Cpp.Run(m, front), event)] else []
  }

  lemma SameStep(m: Machine, event: SessionEvent)
    ensures KApply(m, event) == Outcome(Step(m, Named(event)), Accepts(m, Named(event)))
  {
  }

  lemma UnsharedIsRejected(m: Machine, event: Event)
    requires !Shared(event)
    ensures !Accepts(m, event) && Step(m, event) == m
  {
  }

  /** On every trace and from every machine the two sides end alike and give the same verdicts. */
  lemma {:induction false} MachinesAgree(m: Machine, events: seq<Event>)
    ensures KRun(m, Erased(events)) == Cpp.Run(m, events)
    ensures KVerdicts(m, Erased(events)) == SharedVerdicts(m, events)
  {
    if events != [] {
      var front, event := events[..|events| - 1], events[|events| - 1];
      MachinesAgree(m, front);
      if Shared(event) {
        var e := Shares(event);
        assert Erased(events)[..|Erased(events)| - 1] == Erased(front);
        SameStep(KRun(m, Erased(front)), e);
      } else {
        UnsharedIsRejected(Cpp.Run(m, front), event);
        assert Erased(events) == Erased(front);
      }
    }
  }
}

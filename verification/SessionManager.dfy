/**
 * The locked manager around the Android machine: any number of apply and stop calls, a stop latch
 * that is set outside the lock, and a lock held across the steps of one call.
 */
module SessionManager {
  import opened Wrappers
  import opened Session
  import opened SessionKotlin

  datatype Call = Applying(id: nat) | Stopping(id: nat)

  /** What onStateChanged was told, and in which call. */
  datatype Note = Note(caller: Call, state: State)

  datatype ApplyPc =
    | Waiting(event: SessionEvent)
    | InLock(event: SessionEvent)
    | PastLatch(event: SessionEvent)
    | ApplyDone(ok: bool)

  datatype StopPc =
    | Won
    | StopInLock
    | StopReturned(won: bool)

  /**
   * `winner` records the stop call that set the latch, `late` counts the events accepted after
   * that call ran.
   */
  datatype Manager = Manager(
    latch: bool, winner: Option<nat>, lock: Option<Call>, machine: Machine, notes: seq<Note>,
    applies: map<nat, ApplyPc>, stops: map<nat, StopPc>, late: nat)

  const NEW_MANAGER := Manager(false, None, None, START, [], map[], map[], 0)

  datatype Move =
    | ApplyCall(id: nat, event: SessionEvent) | ApplyLock(id: nat) | ApplyLatch(id: nat) | ApplyRun(id: nat)
    | StopCall(id: nat) | StopLock(id: nat) | StopRun(id: nat)

  /** The notifications the winning stop has made. */
  function StopNotes(notes: seq<Note>): nat {
    if notes == [] then 0 else StopNotes(notes[..|notes| - 1]) + if notes[|notes| - 1].caller.Stopping? then 1 else 0
  }

  function Next(m: Manager, move: Move): Option<Manager> {
    match move
    case ApplyCall(id, event) =>
      if id in m.applies then None else Some(m.(applies := m.applies[id := Waiting(event)]))
    case ApplyLock(id) =>
      if id !in m.applies || !m.applies[id].Waiting? || m.lock.Some? then None
      else Some(m.(lock := Some(Applying(id)), applies := m.applies[id := InLock(m.applies[id].event)]))
    case ApplyLatch(id) =>
      if id !in m.applies || !m.applies[id].InLock? then None
      else if m.latch && m.applies[id].event != BEGIN_DISCOVERY then
        Some(m.(lock := None, applies := m.applies[id := ApplyDone(false)]))
      else Some(m.(applies := m.applies[id := PastLatch(m.applies[id].event)]))
    case ApplyRun(id) =>
      if id !in m.applies || !m.applies[id].PastLatch? then None
      else
        var r := KApply(m.machine, m.applies[id].event);
        var done := m.(lock := None, machine := r.machine, applies := m.applies[id := ApplyDone(r.ok)]);
        if r.ok then Some(done.(notes := m.notes + [Note(Applying(id), r.machine.state)],
                                late := m.late + if StopNotes(m.notes) > 0 then 1 else 0))
        else Some(done)
    case StopCall(id) =>
      if id in m.stops then None
      else if m.latch then Some(m.(stops := m.stops[id := StopReturned(false)]))
      else Some(m.(latch := true, winner := Some(id), stops := m.stops[id := Won]))
    case StopLock(id) =>
      if id !in m.stops || !m.stops[id].Won? || m.lock.Some? then None
      else Some(m.(lock := Some(Stopping(id)), stops := m.stops[id := StopInLock]))
    case StopRun(id) =>
      if id !in m.stops || !m.stops[id].StopInLock? then None
      else
        var after := KStop(m.machine);
        Some(m.(lock := None, machine := after, notes := m.notes + [Note(Stopping(id), after.state)],
                stops := m.stops[id := StopReturned(true)]))
  }

  function After(m: Manager, moves: seq<Move>): Option<Manager> {
    if moves == [] then Some(m)
    else match After(m, moves[..|moves| - 1])
      case None => None
      case Some(p) => Next(p, moves[|moves| - 1])
  }

  predicate LockOk(m: Manager) {
    && (forall id | id in m.applies && (m.applies[id].InLock? || m.applies[id].PastLatch?) :: m.lock == Some(Applying(id)))
    && (forall id | id in m.stops && m.stops[id].StopInLock? :: m.lock == Some(Stopping(id)))
  }

  /** The winning stop has run. */
  predicate Finished(m: Manager) {
    StopNotes(m.notes) > 0
  }

  predicate LatchOk(m: Manager) {
    && (m.latch <==> m.winner.Some?)
    && (forall id | id in m.stops && m.stops[id] != StopReturned(false) :: m.winner == Some(id))
    && (m.winner.Some? ==> m.winner.value in m.stops && m.stops[m.winner.value] != StopReturned(false))
    && StopNotes(m.notes) == if m.winner.Some? && m.stops[m.winner.value].StopReturned? then 1 else 0
  }

  /** After the winning stop only a new discovery can still get in, once, and it leads no further. */
  predicate QuietOk(m: Manager) {
    && (m.machine.stopped ==> m.machine.state in {Idle, Closing})
    && (m.machine.state.Closing? ==> m.machine.stopped)
    && (Finished(m) ==>
          && m.latch
          && m.machine.state in {Idle, Closing, Discovering}
          && (m.machine.state in {Idle, Closing} ==> m.machine.stopped && m.late == 0)
          && (m.machine.state.Discovering? ==> m.late == 1)
          && forall id | id in m.applies && m.applies[id].PastLatch? :: m.applies[id].event == BEGIN_DISCOVERY)
    && (!Finished(m) ==> m.late == 0)
  }

  predicate ManagerOk(m: Manager) {
    LockOk(m) && LatchOk(m) && QuietOk(m)
  }

  lemma NotesAppend(notes: seq<Note>, n: Note)
    ensures StopNotes(notes + [n]) == StopNotes(notes) + if n.caller.Stopping? then 1 else 0
  {
    assert (notes + [n])[..|notes|] == notes;
  }

  predicate ApplyMove(move: Move) {
    move.ApplyCall? || move.ApplyLock? || move.ApplyLatch? || move.ApplyRun?
  }

  lemma CallsKeepLock(m: Manager, move: Move)
    requires LockOk(m) && Next(m, move).Some?
    ensures LockOk(Next(m, move).value)
  {
    if ApplyMove(move) {
      AppliesKeepLock(m, move);
    }
  }

  lemma AppliesKeepLock(m: Manager, move: Move)
    requires LockOk(m) && Next(m, move).Some? && ApplyMove(move)
    ensures LockOk(Next(m, move).value)
  {
  }

  lemma AppliesKeepLatch(m: Manager, move: Move)
    requires LatchOk(m) && Next(m, move).Some? && ApplyMove(move)
    ensures LatchOk(Next(m, move).value) && StopNotes(Next(m, move).value.notes) == StopNotes(m.notes)
  {
    var m' := Next(m, move).value;
    if move.ApplyRun? {
      NotesAppend(m.notes, Note(Applying(move.id), m'.machine.state));
    }
  }

  lemma StopsKeepLatch(m: Manager, move: Move)
    requires LatchOk(m) && Next(m, move).Some? && !ApplyMove(move)
    ensures LatchOk(Next(m, move).value)
  {
    if move.StopRun? {
      NotesAppend(m.notes, Note(Stopping(move.id), Next(m, move).value.machine.state));
    }
  }

  /** Past a set latch a quiet machine only takes a BeginDiscovery, and only when it is idle. */
  lemma QuietMachine(m: Machine, event: SessionEvent)
    requires m.stopped ==> m.state in {Idle, Closing}
    requires m.state.Closing? ==> m.stopped
    ensures var r := KApply(m, event);
      && (r.machine.stopped ==> r.machine.state in {Idle, Closing})
      && (r.machine.state.Closing? ==> r.machine.stopped)
      && (event == BEGIN_DISCOVERY && m.state in {Idle, Closing, Discovering} ==>
            if m.state.Idle? then r == Outcome(Machine(Discovering, false), true) else r == Outcome(m, false))
  {
  }

  /** An event that gets past a set latch is a BeginDiscovery: it starts an idle machine or is refused. */
  lemma RunStaysQuiet(m: Manager, id: nat)
    requires QuietOk(m) && Next(m, ApplyRun(id)).Some?
    ensures QuietOk(Next(m, ApplyRun(id)).value)
  {
    var event := m.applies[id].event;
    var r := KApply(m.machine, event);
    NotesAppend(m.notes, Note(Applying(id), r.machine.state));
    QuietMachine(m.machine, event);
  }

  lemma LatchStaysQuiet(m: Manager, id: nat)
    requires QuietOk(m) && Next(m, ApplyLatch(id)).Some?
    ensures QuietOk(Next(m, ApplyLatch(id)).value)
  {
  }

  lemma WaitStaysQuiet(m: Manager, move: Move)
    requires QuietOk(m) && Next(m, move).Some? && (move.ApplyCall? || move.ApplyLock? || move.StopCall? || move.StopLock?)
    ensures QuietOk(Next(m, move).value)
  {
  }

  /** The winning stop runs with the lock, so no event is past the latch. */
  lemma StopStaysQuiet(m: Manager, id: nat)
    requires LockOk(m) && LatchOk(m) && QuietOk(m) && Next(m, StopRun(id)).Some?
    ensures QuietOk(Next(m, StopRun(id)).value)
  {
    var m' := Next(m, StopRun(id)).value;
    NotesAppend(m.notes, Note(Stopping(id), m'.machine.state));
    assert !Finished(m);
  }

  lemma EveryMoveKeeps(m: Manager, move: Move)
    requires ManagerOk(m) && Next(m, move).Some?
    ensures ManagerOk(Next(m, move).value)
  {
    CallsKeepLock(m, move);
    if ApplyMove(move) {
      AppliesKeepLatch(m, move);
    } else {
      StopsKeepLatch(m, move);
    }
    match move
    case ApplyRun(id) => RunStaysQuiet(m, id);
    case ApplyLatch(id) => LatchStaysQuiet(m, id);
    case StopRun(id) => StopStaysQuiet(m, id);
    case _ => WaitStaysQuiet(m, move);
  }

  lemma {:induction false} ManagerOverRuns(moves: seq<Move>)
    requires After(NEW_MANAGER, moves).Some?
    ensures ManagerOk(After(NEW_MANAGER, moves).value)
  {
    if moves != [] {
      ManagerOverRuns(moves[..|moves| - 1]);
      EveryMoveKeeps(After(NEW_MANAGER, moves[..|moves| - 1]).value, moves[|moves| - 1]);
    }
  }

  /**
   * Over a whole run stop() notifies at most once, and exactly once as soon as the call that set
   * the latch has returned; losing calls never notify.
   */
  lemma StopNotifiesOnce(moves: seq<Move>, id: nat)
    requires After(NEW_MANAGER, moves).Some?
    ensures var m := After(NEW_MANAGER, moves).value;
      && StopNotes(m.notes) <= 1
      && (id in m.stops && m.stops[id] == StopReturned(true) ==> StopNotes(m.notes) == 1)
  {
    ManagerOverRuns(moves);
  }

  /** From the return of the winning stop on, at most one event is accepted and no session comes up. */
  lemma NothingComesUpAfterStop(moves: seq<Move>, id: nat)
    requires After(NEW_MANAGER, moves).Some?
    requires var m := After(NEW_MANAGER, moves).value; id in m.stops && m.stops[id] == StopReturned(true)
    ensures var m := After(NEW_MANAGER, moves).value;
      && m.late <= 1
      && m.machine.state in {Idle, Closing, Discovering}
      && (m.machine.state.Discovering? <==> m.late == 1)
  {
    ManagerOverRuns(moves);
  }

  /** The manager when its calls do not overlap; `told` is what onStateChanged was told. */
  class LockedManager {
    const machine: SessionStateMachine
    var stopped: bool
    var told: seq<State>

    constructor ()
      ensures !stopped && told == [] && machine.Now() == START && fresh(machine)
    {
      machine := new SessionStateMachine();
      stopped := false;
      told := [];
    }

    method Apply(event: SessionEvent) returns (ok: bool)
      modifies this`told, machine
      ensures ok <==> (!stopped || event == BEGIN_DISCOVERY) && KApply(old(machine.Now()), event).ok
      ensures machine.Now() == if stopped && event != BEGIN_DISCOVERY then old(machine.Now()) else KApply(old(machine.Now()), event).machine
      ensures told == if ok then old(told) + [machine.state] else old(told)
    {
      if stopped && event != BEGIN_DISCOVERY {
        return false;
      }
      ok := machine.Apply(event);
      if ok {
        told := told + [machine.state];
      }
    }

    method Stop()
      modifies this, machine
      ensures stopped
      ensures machine.Now() == if old(stopped) then old(machine.Now()) else KStop(old(machine.Now()))
      ensures told == if old(stopped) then old(told) else old(told) + [machine.state]
    {
      if stopped {
        return;
      }
      stopped := true;
      machine.StopNow();
      told := told + [machine.state];
    }
  }

  lemma AfterOne(m: Manager, moves: seq<Move>, p: Manager, move: Move)
    requires After(m, moves) == Some(p)
    ensures After(m, moves + [move]) == Next(p, move)
  {
    assert (moves + [move])[..|moves|] == moves;
  }

  /** The moves of an apply call nobody gets in between of: with the latch set, the last one may not happen. */
  function ApplyMoves(id: nat, event: SessionEvent): seq<Move> {
    [] + [ApplyCall(id, event)] + [ApplyLock(id)] + [ApplyLatch(id)]
  }

  /** m' is m with an apply call done that gave `ok`, as LockedManager.Apply says. */
  predicate Applied(m: Manager, m': Manager, id: nat, event: SessionEvent) {
    var shut, r := m.latch && event != BEGIN_DISCOVERY, KApply(m.machine, event);
    && id in m'.applies && m'.applies[id] == ApplyDone(!shut && r.ok)
    && m'.lock.None? && m'.latch == m.latch
    && m'.machine == (if shut then m.machine else r.machine)
    && m'.notes == if !shut && r.ok then m.notes + [Note(Applying(id), m'.machine.state)] else m.notes
  }

  /** Where the call is before it runs the machine. */
  lemma ApplyReachesLatch(m: Manager, id: nat, event: SessionEvent)
    requires id !in m.applies && m.lock.None?
    ensures var m' := After(m, ApplyMoves(id, event));
      && m'.Some? && id in m'.value.applies
      && m'.value.latch == m.latch && m'.value.machine == m.machine && m'.value.notes == m.notes
      && if m.latch && event != BEGIN_DISCOVERY then m'.value.applies[id] == ApplyDone(false) && m'.value.lock.None?
         else m'.value.applies[id] == PastLatch(event)
  {
    var m1 := m.(applies := m.applies[id := Waiting(event)]);
    var m2 := m1.(lock := Some(Applying(id)), applies := m1.applies[id := InLock(event)]);
    AfterOne(m, [], m, ApplyCall(id, event));
    AfterOne(m, [] + [ApplyCall(id, event)], m1, ApplyLock(id));
    AfterOne(m, [] + [ApplyCall(id, event)] + [ApplyLock(id)], m2, ApplyLatch(id));
  }

  /** An apply call nobody gets in between of does in its moves what LockedManager.Apply does at once. */
  lemma UndisturbedApply(m: Manager, id: nat, event: SessionEvent)
    requires id !in m.applies && m.lock.None?
    ensures var shut := m.latch && event != BEGIN_DISCOVERY;
      var m' := After(m, if shut then ApplyMoves(id, event) else ApplyMoves(id, event) + [ApplyRun(id)]);
      m'.Some? && Applied(m, m'.value, id, event)
  {
    ApplyReachesLatch(m, id, event);
    if !m.latch || event == BEGIN_DISCOVERY {
      AfterOne(m, ApplyMoves(id, event), After(m, ApplyMoves(id, event)).value, ApplyRun(id));
    }
  }

  lemma StopTakesLock(m: Manager, id: nat)
    requires id !in m.stops && m.lock.None? && !m.latch
    ensures After(m, [] + [StopCall(id)] + [StopLock(id)]) ==
      Some(m.(latch := true, winner := Some(id), lock := Some(Stopping(id)), stops := m.stops[id := Won][id := StopInLock]))
  {
    AfterOne(m, [], m, StopCall(id));
    AfterOne(m, [] + [StopCall(id)], m.(latch := true, winner := Some(id), stops := m.stops[id := Won]), StopLock(id));
  }

  /** The same for a stop call: the first one stops and tells, any later one returns at once. */
  lemma UndisturbedStop(m: Manager, id: nat)
    requires id !in m.stops && m.lock.None?
    ensures var m' := After(m, if m.latch then [] + [StopCall(id)] else [] + [StopCall(id)] + [StopLock(id)] + [StopRun(id)]);
      && m'.Some? && m'.value.lock.None? && m'.value.latch
      && id in m'.value.stops && m'.value.stops[id] == StopReturned(!m.latch)
      && m'.value.machine == (if m.latch then m.machine else KStop(m.machine))
      && m'.value.notes == if m.latch then m.notes else m.notes + [Note(Stopping(id), m'.value.machine.state)]
  {
    if m.latch {
      AfterOne(m, [], m, StopCall(id));
    } else {
      StopTakesLock(m, id);
      AfterOne(m, [] + [StopCall(id)] + [StopLock(id)], After(m, [] + [StopCall(id)] + [StopLock(id)]).value, StopRun(id));
    }
  }
}

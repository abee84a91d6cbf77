/**
 * What each thread gets done when no other gets in between: the steps of CoordinatorRuns are there
 * to be taken, and taken in a row they do what the source's methods do.
 */
module CoordinatorProgress {
  import opened Bytes
  import opened Wrappers
  import opened Protocol
  import opened Framing
  import opened TlsStream
  import opened Heartbeats
  import opened CoordinatorRuns

  /** Taken in a row from s, the steps are all possible and end in s'. */
  predicate Leads(s: State, steps: seq<Step>, s': State)
    decreases |steps|
  {
    if steps == [] then s' == s
    else Do(s, steps[0]).Some? && Leads(Do(s, steps[0]).value, steps[1..], s')
  }

  lemma LeadsOne(s: State, step: Step, s': State)
    requires Do(s, step) == Some(s')
    ensures Leads(s, [step], s')
  {
    hide Do;
    assert [step][1..] == [];
  }

  lemma {:induction false} LeadsThen(s: State, first: seq<Step>, m: State, second: seq<Step>, s': State)
    requires Leads(s, first, m) && Leads(m, second, s')
    ensures Leads(s, first + second, s')
    decreases |first|
  {
    hide Do;
    if first == [] {
      assert first + second == second;
    } else {
      LeadsThen(Do(s, first[0]).value, first[1..], m, second, s');
      assert (first + second)[1..] == first[1..] + second;
    }
  }

  lemma LeadsOneMore(s: State, steps: seq<Step>, m: State, step: Step, s': State)
    requires Leads(s, steps, m) && Do(m, step) == Some(s')
    ensures Leads(s, steps + [step], s')
  {
    hide Do;
    LeadsOne(m, step, s');
    LeadsThen(s, steps, m, [step], s');
  }

  /** It is a run in the sense of the safety theorems. */
  lemma {:induction false} LeadsIsRun(s: State, steps: seq<Step>, s': State) returns (trace: seq<State>)
    requires Leads(s, steps, s')
    ensures Run(s, trace, steps) && trace[|steps|] == s'
    decreases |steps|
  {
    hide Do;
    if steps == [] {
      trace := [s];
    } else {
      var later := LeadsIsRun(Do(s, steps[0]).value, steps[1..], s');
      trace := [s] + later;
      forall i | 0 <= i < |steps|
        ensures Do(trace[i], steps[i]) == Some(trace[i + 1])
      {
        if i > 0 {
          assert steps[1..][i - 1] == steps[i];
        }
      }
    }
  }

  // ---- one send call ----

  /** Where a send call is, and what it has made of connection c. */
  function InCall(s: State, c: nat, k: Conn, call: nat, pc: SendPc): State
    requires At(s, c)
  {
    With(s, c, k).(sends := s.sends[call := pc])
  }

  lemma InCallAgain(s: State, c: nat, k: Conn, k': Conn, call: nat, pc: SendPc, pc': SendPc)
    requires At(s, c)
    ensures InCall(InCall(s, c, k, call, pc), c, k', call, pc') == InCall(s, c, k', call, pc')
  {
    assert s.conns[c := k][c := k'] == s.conns[c := k'];
    assert s.sends[call := pc][call := pc'] == s.sends[call := pc'];
  }

  lemma BeginStep(s: State, c: nat, call: nat, e: Envelope)
    requires !s.aborted && At(s, c) && s.activePeer == Some(c) && call !in s.sends
    ensures Do(s, SendBegin(call, e)) == Some(InCall(s, c, s.conns[c], call, Copied(Some(c), e)))
  {
    assert s.conns[c := s.conns[c]] == s.conns;
  }

  lemma LockStep(s: State, c: nat, k: Conn, call: nat, e: Envelope)
    requires !s.aborted && At(s, c) && k.holder.Free?
    ensures Do(InCall(s, c, k, call, Copied(Some(c), e)), SendLock(call)) ==
      Some(InCall(s, c, k.(holder := Sender(call)), call, Locked(c, e)))
  {
    InCallAgain(s, c, k, k.(holder := Sender(call)), call, Copied(Some(c), e), Locked(c, e));
  }

  lemma CheckStep(s: State, c: nat, k: Conn, call: nat, e: Envelope)
    requires !s.aborted && At(s, c)
    ensures Do(InCall(s, c, k, call, Locked(c, e)), SendCheck(call)) ==
      Some(if k.established then InCall(s, c, k, call, Checked(c, e))
           else InCall(s, c, k.(holder := Free), call, SendDone(false, e, None)))
  {
    InCallAgain(s, c, k, k, call, Locked(c, e), Checked(c, e));
    InCallAgain(s, c, k, k.(holder := Free), call, Locked(c, e), SendDone(false, e, None));
    assert s.conns[c := k][c := k] == s.conns[c := k];
  }

  lemma EncodeStep(s: State, c: nat, k: Conn, call: nat, e: Envelope)
    requires !s.aborted && At(s, c) && k.holder == Sender(call)
    ensures Do(InCall(s, c, k, call, Checked(c, e)), SendEncode(call)) ==
      Some(if k.closed || !Sendable(e) then InCall(s, c, k.(holder := Free), call, SendDone(false, e, None))
           else InCall(s, c, k.(wire := Commit(k.wire, e, Some(call)), writing := true), call, Writing(c, e)))
  {
    InCallAgain(s, c, k, k.(holder := Free), call, Checked(c, e), SendDone(false, e, None));
    InCallAgain(s, c, k, k.(wire := Commit(k.wire, e, Some(call)), writing := true), call, Checked(c, e), Writing(c, e));
  }

  /** What one turn of the write loop makes of the call. */
  function TurnPc(k': Conn, c: nat, e: Envelope): SendPc
    requires k'.wire.committed != []
  {
    if k'.holder.Free? then SendDone(AllOut(k'.wire), e, Some(Slot(c, |k'.wire.committed| - 1))) else Writing(c, e)
  }

  lemma WrittenCommitsNothing(k: Conn, io: Io)
    requires k.wire.sent < |k.wire.frame|
    ensures Written(k, io).wire.committed == k.wire.committed
  {
    hide AllOut;
    assert WriteCall(k.wire, io).committed == k.wire.committed;
  }

  lemma WriteStep(s: State, c: nat, k: Conn, call: nat, e: Envelope, io: Io)
    requires !s.aborted && At(s, c) && k.wire.sent < |k.wire.frame| && k.wire.committed != []
    requires Written(k, io).wire.committed != []
    ensures Do(InCall(s, c, k, call, Writing(c, e)), SendWrite(call, io)) ==
      Some(InCall(s, c, Written(k, io), call, TurnPc(Written(k, io), c, e)))
  {
    hide Written, WriteCall, AllOut;
    InCallAgain(s, c, k, Written(k, io), call, Writing(c, e), TurnPc(Written(k, io), c, e));
  }

  const SSL_LIMIT := 1_048_576

  /** How many bytes one SSL_write call sends of what is left. */
  function Moves(io: Io, left: nat): (n: nat)
    ensures n <= left
  {
    if io.Moved? then Min(io.count, Min(left, SSL_LIMIT)) else 0
  }

  /** A script of SSL calls that decides a write loop: its last call sends the rest or fails, none before does. */
  predicate Decides(left: nat, ios: seq<Io>)
    decreases |ios|
  {
    && ios != [] && left > 0
    && if ios[0].Failed? || Moves(ios[0], left) == left then |ios| == 1
       else Decides(left - Moves(ios[0], left), ios[1..])
  }

  predicate Succeeds(ios: seq<Io>) {
    ios != [] && !ios[|ios| - 1].Failed?
  }

  function WriteSteps(call: nat, ios: seq<Io>): seq<Step> {
    seq(|ios|, i requires 0 <= i < |ios| => SendWrite(call, ios[i]))
  }

  /** k' is k with n more bytes of its frame out. */
  predicate FurtherOut(k: Conn, k': Conn, n: nat) {
    && k.wire.sent + n <= |k.wire.frame|
    && k'.wire == k.wire.(sent := k.wire.sent + n, out := k.wire.out + k.wire.frame[k.wire.sent..k.wire.sent + n])
  }

  /** After the loop the mutex is free; on failure the stream is closed and the frame cut. */
  predicate LoopEnds(k: Conn, k': Conn, n: nat, ok: bool) {
    && FurtherOut(k, k', n)
    && (ok <==> k.wire.sent + n == |k.wire.frame|)
    && k' == k.(wire := k'.wire, writing := false, holder := Free, closed := !ok)
  }

  lemma OneTurn(k: Conn, io: Io)
    requires !k.closed && k.wire.sent < |k.wire.frame|
    ensures var left := |k.wire.frame| - k.wire.sent;
      var n := Moves(io, left);
      if io.Failed? then LoopEnds(k, Written(k, io), 0, false)
      else if n == left then LoopEnds(k, Written(k, io), n, true)
      else FurtherOut(k, Written(k, io), n) && Written(k, io) == k.(wire := Written(k, io).wire)
  {
    assert k.wire.out + k.wire.frame[k.wire.sent..k.wire.sent] == k.wire.out;
  }

  lemma FurtherOutFields(k: Conn, k': Conn, n: nat)
    requires FurtherOut(k, k', n)
    ensures k'.wire.committed == k.wire.committed && k'.wire.frame == k.wire.frame && k'.wire.sent == k.wire.sent + n
  {
  }

  lemma OutGrows(out: seq<byte>, frame: seq<byte>, a: nat, b: nat, c: nat)
    requires a <= b <= c <= |frame|
    ensures (out + frame[a..b]) + frame[b..c] == out + frame[a..c]
  {
  }

  lemma MoreTurns(k: Conn, m: Conn, k': Conn, n: nat, rest: nat, ok: bool)
    requires FurtherOut(k, m, n) && m == k.(wire := m.wire) && LoopEnds(m, k', rest, ok)
    ensures LoopEnds(k, k', n + rest, ok)
  {
    OutGrows(k.wire.out, k.wire.frame, k.wire.sent, m.wire.sent, k'.wire.sent);
  }

  /** The connection after a whole write loop. */
  function Looped(k: Conn, ios: seq<Io>): Conn
    decreases |ios|
  {
    if ios == [] || k.wire.sent >= |k.wire.frame| then k else Looped(Written(k, ios[0]), ios[1..])
  }

  predicate InLoop(k: Conn, call: nat, ios: seq<Io>) {
    && !k.closed && k.holder == Sender(call) && k.wire.committed != []
    && k.wire.sent <= |k.wire.frame| && Decides(|k.wire.frame| - k.wire.sent, ios)
  }

  lemma DecidesOne(left: nat, io: Io)
    requires Decides(left, [io])
    ensures io.Failed? || Moves(io, left) == left
  {
    assert [io][1..] == [];
  }

  lemma DecidesMore(left: nat, ios: seq<Io>)
    requires Decides(left, ios) && |ios| > 1
    ensures !ios[0].Failed? && Moves(ios[0], left) < left && Decides(left - Moves(ios[0], left), ios[1..])
  {
  }

  lemma LastTurn(k: Conn, call: nat, io: Io)
    requires InLoop(k, call, [io])
    ensures Looped(k, [io]) == Written(k, io)
    ensures Written(k, io).holder.Free? && Written(k, io).wire.committed == k.wire.committed
    ensures AllOut(Written(k, io).wire) <==> !io.Failed?
  {
    hide Written;
    OneTurn(k, io);
    DecidesOne(|k.wire.frame| - k.wire.sent, io);
    WrittenCommitsNothing(k, io);
    assert Looped(k, [io]) == Looped(Written(k, io), [io][1..]);
  }

  lemma MiddleWritten(k: Conn, io: Io)
    requires !k.closed && k.wire.sent < |k.wire.frame| && !io.Failed? && Moves(io, |k.wire.frame| - k.wire.sent) < |k.wire.frame| - k.wire.sent
    ensures FurtherOut(k, Written(k, io), Moves(io, |k.wire.frame| - k.wire.sent))
    ensures Written(k, io) == k.(wire := Written(k, io).wire)
  {
    hide Written, FurtherOut, LoopEnds;
    OneTurn(k, io);
  }

  lemma MiddleTurn(k: Conn, call: nat, ios: seq<Io>)
    requires InLoop(k, call, ios) && |ios| > 1
    ensures Looped(k, ios) == Looped(Written(k, ios[0]), ios[1..]) && InLoop(Written(k, ios[0]), call, ios[1..])
    ensures Written(k, ios[0]).wire.committed == k.wire.committed
    ensures FurtherOut(k, Written(k, ios[0]), Moves(ios[0], |k.wire.frame| - k.wire.sent))
    ensures Written(k, ios[0]) == k.(wire := Written(k, ios[0]).wire)
  {
    hide Written, Decides, FurtherOut, Moves;
    DecidesMore(|k.wire.frame| - k.wire.sent, ios);
    MiddleWritten(k, ios[0]);
    FurtherOutFields(k, Written(k, ios[0]), Moves(ios[0], |k.wire.frame| - k.wire.sent));
    assert Looped(k, ios) == Looped(Written(k, ios[0]), ios[1..]);
  }

  lemma {:induction false} LoopedEnds(k: Conn, call: nat, ios: seq<Io>) returns (n: nat)
    requires InLoop(k, call, ios)
    ensures LoopEnds(k, Looped(k, ios), n, Succeeds(ios))
    decreases |ios|
  {
    hide Written;
    if |ios| == 1 {
      assert ios == [ios[0]];
      LastTurn(k, call, ios[0]);
      OneTurn(k, ios[0]);
      n := Moves(ios[0], |k.wire.frame| - k.wire.sent);
    } else {
      MiddleTurn(k, call, ios);
      var rest := LoopedEnds(Written(k, ios[0]), call, ios[1..]);
      n := Moves(ios[0], |k.wire.frame| - k.wire.sent) + rest;
      MoreTurns(k, Written(k, ios[0]), Looped(k, ios), n - rest, rest, Succeeds(ios[1..]));
    }
  }

  function LoopDone(s: State, c: nat, k': Conn, call: nat, e: Envelope, ok: bool): State
    requires At(s, c) && k'.wire.committed != []
  {
    InCall(s, c, k', call, SendDone(ok, e, Some(Slot(c, |k'.wire.committed| - 1))))
  }

  /** The loop's steps are possible in a row and end the call with what the last SSL call gave. */
  lemma {:induction false} LoopLeads(s: State, c: nat, k: Conn, call: nat, e: Envelope, ios: seq<Io>)
    requires !s.aborted && At(s, c) && InLoop(k, call, ios)
    ensures Looped(k, ios).wire.committed == k.wire.committed
    ensures Leads(InCall(s, c, k, call, Writing(c, e)), WriteSteps(call, ios), LoopDone(s, c, Looped(k, ios), call, e, Succeeds(ios)))
    decreases |ios|
  {
    hide Do, Written, InCall, Looped, FurtherOut;
    var m := Written(k, ios[0]);
    if |ios| == 1 {
      assert ios == [ios[0]];
      LastTurn(k, call, ios[0]);
      WriteStep(s, c, k, call, e, ios[0]);
      LeadsOne(InCall(s, c, k, call, Writing(c, e)), SendWrite(call, ios[0]), InCall(s, c, m, call, TurnPc(m, c, e)));
      assert WriteSteps(call, ios) == [SendWrite(call, ios[0])];
    } else {
      MiddleTurn(k, call, ios);
      WriteStep(s, c, k, call, e, ios[0]);
      LeadsOne(InCall(s, c, k, call, Writing(c, e)), SendWrite(call, ios[0]), InCall(s, c, m, call, Writing(c, e)));
      LoopLeads(s, c, m, call, e, ios[1..]);
      assert WriteSteps(call, ios) == [SendWrite(call, ios[0])] + WriteSteps(call, ios[1..]);
      LeadsThen(InCall(s, c, k, call, Writing(c, e)), [SendWrite(call, ios[0])], InCall(s, c, m, call, Writing(c, e)),
                WriteSteps(call, ios[1..]), LoopDone(s, c, Looped(k, ios), call, e, Succeeds(ios)));
    }
  }

  /** A connection at rest: no one holds its write mutex, and all it was given to send is out. */
  predicate AtRest(k: Conn) {
    k.holder.Free? && !k.writing && AllOut(k.wire)
  }

  /** k' is k with the envelope's frame added to what is out: all of it, or a beginning and the stream closed. */
  predicate FrameAdded(k: Conn, k': Conn, e: Envelope, owner: Option<nat>, n: nat, ok: bool) {
    && n <= |Frame(e)| && (ok <==> n == |Frame(e)|)
    && k'.wire.committed == k.wire.committed + [e] && k'.wire.owners == k.wire.owners + [owner]
    && k'.wire.frame == Frame(e) && k'.wire.sent == n
    && k'.wire.out == k.wire.out + Frame(e)[..n]
    && k' == k.(wire := k'.wire, closed := !ok)
  }

  lemma LoopAddsFrame(k: Conn, m: Conn, k': Conn, e: Envelope, call: nat, n: nat, ok: bool)
    requires AtRest(k) && !k.closed && m == k.(holder := Sender(call), wire := Commit(k.wire, e, Some(call)), writing := true)
    requires LoopEnds(m, k', n, ok)
    ensures FrameAdded(k, k', e, Some(call), n, ok)
  {
    assert Frame(e)[0..n] == Frame(e)[..n];
  }

  /** The send goes through to the stream. */
  predicate Lets(k: Conn, e: Envelope) {
    k.established && !k.closed && Sendable(e)
  }

  function SendSteps(k: Conn, call: nat, e: Envelope, ios: seq<Io>): seq<Step> {
    if !k.established then [SendLock(call), SendCheck(call)]
    else [SendLock(call), SendCheck(call), SendEncode(call)] + if Lets(k, e) then WriteSteps(call, ios) else []
  }

  lemma LockAndCheck(s: State, c: nat, k: Conn, call: nat, e: Envelope)
    requires !s.aborted && At(s, c) && k.holder.Free?
    ensures var m := k.(holder := Sender(call));
      Leads(InCall(s, c, k, call, Copied(Some(c), e)), [SendLock(call), SendCheck(call)],
            if k.established then InCall(s, c, m, call, Checked(c, e)) else InCall(s, c, k, call, SendDone(false, e, None)))
  {
    hide Do, InCall;
    var m := k.(holder := Sender(call));
    LockStep(s, c, k, call, e);
    CheckStep(s, c, m, call, e);
    assert m.(holder := Free) == k;
    var s0, s1 := InCall(s, c, k, call, Copied(Some(c), e)), InCall(s, c, m, call, Locked(c, e));
    var s2 := if k.established then InCall(s, c, m, call, Checked(c, e)) else InCall(s, c, k, call, SendDone(false, e, None));
    LeadsOne(s0, SendLock(call), s1);
    LeadsOneMore(s0, [SendLock(call)], s1, SendCheck(call), s2);
    assert [SendLock(call)] + [SendCheck(call)] == [SendLock(call), SendCheck(call)];
  }

  lemma LockToEncode(s: State, c: nat, k: Conn, call: nat, e: Envelope)
    requires !s.aborted && At(s, c) && k.holder.Free? && k.established
    ensures var m := k.(holder := Sender(call), wire := Commit(k.wire, e, Some(call)), writing := true);
      Leads(InCall(s, c, k, call, Copied(Some(c), e)), [SendLock(call), SendCheck(call), SendEncode(call)],
            if Lets(k, e) then InCall(s, c, m, call, Writing(c, e)) else InCall(s, c, k, call, SendDone(false, e, None)))
  {
    hide Do, InCall, Commit;
    var l := k.(holder := Sender(call));
    LockAndCheck(s, c, k, call, e);
    EncodeStep(s, c, l, call, e);
    assert l.(holder := Free) == k;
    var m := l.(wire := Commit(l.wire, e, Some(call)), writing := true);
    var s3 := if Lets(k, e) then InCall(s, c, m, call, Writing(c, e)) else InCall(s, c, k, call, SendDone(false, e, None));
    LeadsOneMore(InCall(s, c, k, call, Copied(Some(c), e)), [SendLock(call), SendCheck(call)], InCall(s, c, l, call, Checked(c, e)),
                 SendEncode(call), s3);
    assert [SendLock(call), SendCheck(call)] + [SendEncode(call)] == [SendLock(call), SendCheck(call), SendEncode(call)];
  }

  /** How a send call that has its peer ends when no one gets in between. */
  predicate SendEnds(k: Conn, k': Conn, call: nat, e: Envelope, ios: seq<Io>, n: nat, pc: SendPc) {
    if Lets(k, e) then
      FrameAdded(k, k', e, Some(call), n, Succeeds(ios)) && pc.SendDone? && pc.ok == Succeeds(ios) && pc.e == e && pc.slot.Some?
    else k' == k && pc == SendDone(false, e, None)
  }

  lemma SendFromCopied(s: State, c: nat, k: Conn, call: nat, e: Envelope, ios: seq<Io>) returns (k': Conn, n: nat, pc: SendPc)
    requires !s.aborted && At(s, c) && AtRest(k)
    requires Lets(k, e) ==> Decides(|Frame(e)|, ios)
    ensures Leads(InCall(s, c, k, call, Copied(Some(c), e)), SendSteps(k, call, e, ios), InCall(s, c, k', call, pc))
    ensures SendEnds(k, k', call, e, ios, n, pc)
  {
    hide Do, InCall, FrameAdded, LoopEnds, Decides;
    k', n, pc := k, 0, SendDone(false, e, None);
    var s0 := InCall(s, c, k, call, Copied(Some(c), e));
    if !k.established {
      LockAndCheck(s, c, k, call, e);
    } else {
      LockToEncode(s, c, k, call, e);
      if Lets(k, e) {
        var m := k.(holder := Sender(call), wire := Commit(k.wire, e, Some(call)), writing := true);
        n := LoopedEnds(m, call, ios);
        LoopLeads(s, c, m, call, e, ios);
        k' := Looped(m, ios);
        LoopAddsFrame(k, m, k', e, call, n, Succeeds(ios));
        pc := SendDone(Succeeds(ios), e, Some(Slot(c, |k'.wire.committed| - 1)));
        assert InCall(s, c, k', call, pc) == LoopDone(s, c, k', call, e, Succeeds(ios));
        LeadsThen(s0, [SendLock(call), SendCheck(call), SendEncode(call)], InCall(s, c, m, call, Writing(c, e)),
                  WriteSteps(call, ios), InCall(s, c, k', call, pc));
      } else {
        assert SendSteps(k, call, e, ios) == [SendLock(call), SendCheck(call), SendEncode(call)];
      }
    }
  }

  /** What a send does to its connection: k before, k' after, n bytes of the frame out. */
  predicate SendOutcome(k: Conn, k': Conn, e: Envelope, ios: seq<Io>, n: nat, ok: bool) {
    && (ok <==> k.established && !k.closed && Sendable(e) && Succeeds(ios))
    && (ok ==> k'.wire.out == k.wire.out + Frame(e) && !k'.closed)
    && (!(k.established && !k.closed && Sendable(e)) ==> k' == k)
    && (k.established && !k.closed && Sendable(e) && !Succeeds(ios) ==>
          k'.closed && n < |Frame(e)| && k'.wire.out == k.wire.out + Frame(e)[..n])
  }

  /**
   * A send call that no one gets in between of, with c active: it returns true exactly if the
   * session is established and its stream open, the envelope is sendable, and no SSL call fails, and
   * then exactly the envelope's frame has gone out. A failing SSL call leaves a cut frame and a
   * closed stream; any other refusal leaves the connection as it was. Nothing else changes.
   */
  lemma UndisturbedSend(s: State, c: nat, call: nat, e: Envelope, ios: seq<Io>) returns (s': State, n: nat)
    requires !s.aborted && At(s, c) && s.activePeer == Some(c) && call !in s.sends && AtRest(s.conns[c])
    requires Lets(s.conns[c], e) ==> Decides(|Frame(e)|, ios)
    ensures Leads(s, [SendBegin(call, e)] + SendSteps(s.conns[c], call, e, ios), s')
    ensures At(s', c) && call in s'.sends && s' == InCall(s, c, s'.conns[c], call, s'.sends[call])
    ensures s'.sends[call].SendDone? && s'.sends[call].e == e
    ensures SendOutcome(s.conns[c], s'.conns[c], e, ios, n, s'.sends[call].ok)
  {
    hide Do, Decides, Leads;
    var k, pc;
    BeginStep(s, c, call, e);
    k, n, pc := SendFromCopied(s, c, s.conns[c], call, e, ios);
    s' := InCall(s, c, k, call, pc);
    var s1 := InCall(s, c, s.conns[c], call, Copied(Some(c), e));
    LeadsOne(s, SendBegin(call, e), s1);
    LeadsThen(s, [SendBegin(call, e)], s1, SendSteps(s.conns[c], call, e, ios), s');
    assert Frame(e)[..|Frame(e)|] == Frame(e);
  }

  /** With nothing active a send returns false and changes nothing else. */
  lemma SendWithNothingActive(s: State, call: nat, e: Envelope)
    requires !s.aborted && s.activePeer.None? && call !in s.sends
    ensures Leads(s, [SendBegin(call, e), SendLock(call)], s.(sends := s.sends[call := SendDone(false, e, None)]))
  {
    var s1, s2 := s.(sends := s.sends[call := Copied(None, e)]), s.(sends := s.sends[call := SendDone(false, e, None)]);
    assert Do(s, SendBegin(call, e)) == Some(s1);
    assert s1.sends[call := SendDone(false, e, None)] == s2.sends;
    assert Do(s1, SendLock(call)) == Some(s2);
    LeadsOne(s, SendBegin(call, e), s1);
    LeadsOneMore(s, [SendBegin(call, e)], s1, SendLock(call), s2);
    assert [SendBegin(call, e)] + [SendLock(call)] == [SendBegin(call, e), SendLock(call)];
  }

  /** Every write loop can be decided either way, however much is left. */
  lemma {:induction false} EveryLoopCanEnd(left: nat, ok: bool) returns (ios: seq<Io>)
    requires left > 0
    ensures Decides(left, ios) && Succeeds(ios) == ok
    decreases left
  {
    if !ok {
      ios := [Failed];
    } else if left <= SSL_LIMIT {
      ios := [Moved(left)];
    } else {
      var rest := EveryLoopCanEnd(left - SSL_LIMIT, true);
      ios := [Moved(SSL_LIMIT)] + rest;
      assert ios[1..] == rest;
    }
  }

  // ---- the accept thread on one connection ----

  /** The accept thread at a, with connection c as k. */
  function InThread(s: State, c: nat, k: Conn, a: AcceptPc): State
    requires At(s, c)
  {
    With(s, c, k).(accept := a)
  }

  lemma InThreadAgain(s: State, c: nat, k: Conn, k': Conn, a: AcceptPc, a': AcceptPc)
    requires At(s, c)
    ensures InThread(InThread(s, c, k, a), c, k', a') == InThread(s, c, k', a')
  {
    assert s.conns[c := k][c := k'] == s.conns[c := k'];
  }

  lemma InThreadNow(s: State, c: nat)
    requires At(s, c)
    ensures InThread(s, c, s.conns[c], s.accept) == s
  {
    assert s.conns[c := s.conns[c]] == s.conns;
  }

  lemma HandshakeStep(s: State, c: nat, k: Conn)
    requires !s.aborted && At(s, c) && Sendable(s.hello)
    ensures Do(InThread(s, c, k, Establishing(c)), HandshakeDone) ==
      Some(InThread(s, c, k.(wire := Commit(k.wire, s.hello, None), writing := true), Helloing(c)))
  {
    hide Commit;
    InThreadAgain(s, c, k, k.(wire := Commit(k.wire, s.hello, None), writing := true), Establishing(c), Helloing(c));
  }

  function HelloPc(k': Conn, c: nat, io: Io): AcceptPc {
    if io.Failed? then Releasing(c) else if AllOut(k'.wire) then AwaitHello(c) else Helloing(c)
  }

  lemma HelloWriteStep(s: State, c: nat, k: Conn, io: Io)
    requires !s.aborted && At(s, c) && k.wire.sent < |k.wire.frame|
    ensures Do(InThread(s, c, k, Helloing(c)), HelloWrite(io)) ==
      Some(InThread(s, c, HelloWritten(k, io), HelloPc(HelloWritten(k, io), c, io)))
  {
    hide HelloWritten, AllOut;
    InThreadAgain(s, c, k, HelloWritten(k, io), Helloing(c), HelloPc(HelloWritten(k, io), c, io));
  }

  lemma HelloReceivedStep(s: State, c: nat, k: Conn)
    requires !s.aborted && At(s, c)
    ensures Do(InThread(s, c, k, AwaitHello(c)), HelloReceived) ==
      Some(InThread(s, c, k.(established := true, greeted := true), Publishing(c)))
  {
    InThreadAgain(s, c, k, k.(established := true, greeted := true), AwaitHello(c), Publishing(c));
  }

  lemma PublishStep(s: State, c: nat, k: Conn)
    requires !s.aborted && At(s, c) && s.activePeer.None?
    ensures Do(InThread(s, c, k, Publishing(c)), Publish) ==
      Some(InThread(s, c, k.(published := true), Running(c)).(activeSocket := Some(c), activeStream := Some(c), activePeer := Some(c)))
  {
    InThreadAgain(s, c, k, k.(published := true), Publishing(c), Running(c));
  }

  predicate HelloLoopEnds(k: Conn, k': Conn, n: nat, ok: bool) {
    && FurtherOut(k, k', n)
    && (ok <==> k.wire.sent + n == |k.wire.frame|)
    && k' == if ok then k.(wire := k'.wire, writing := false) else k.(wire := k'.wire, writing := false, closed := true, ended := true)
  }

  lemma HelloTurn(k: Conn, io: Io)
    requires k.wire.sent < |k.wire.frame| && k.writing
    ensures var left := |k.wire.frame| - k.wire.sent;
      var n := Moves(io, left);
      if io.Failed? then HelloLoopEnds(k, HelloWritten(k, io), 0, false)
      else if n == left then HelloLoopEnds(k, HelloWritten(k, io), n, true)
      else FurtherOut(k, HelloWritten(k, io), n) && HelloWritten(k, io) == k.(wire := HelloWritten(k, io).wire)
  {
    assert k.wire.out + k.wire.frame[k.wire.sent..k.wire.sent] == k.wire.out;
  }

  lemma MoreHelloTurns(k: Conn, m: Conn, k': Conn, n: nat, rest: nat, ok: bool)
    requires FurtherOut(k, m, n) && m == k.(wire := m.wire) && HelloLoopEnds(m, k', rest, ok)
    ensures HelloLoopEnds(k, k', n + rest, ok)
  {
    OutGrows(k.wire.out, k.wire.frame, k.wire.sent, m.wire.sent, k'.wire.sent);
  }

  function HelloSteps(ios: seq<Io>): seq<Step> {
    seq(|ios|, i requires 0 <= i < |ios| => HelloWrite(ios[i]))
  }

  lemma {:induction false} HelloLoop(s: State, c: nat, k: Conn, ios: seq<Io>) returns (k': Conn, n: nat)
    requires !s.aborted && At(s, c) && k.writing && k.wire.sent <= |k.wire.frame|
    requires Decides(|k.wire.frame| - k.wire.sent, ios)
    ensures HelloLoopEnds(k, k', n, Succeeds(ios))
    ensures Leads(InThread(s, c, k, Helloing(c)), HelloSteps(ios),
                  InThread(s, c, k', if Succeeds(ios) then AwaitHello(c) else Releasing(c)))
    decreases |ios|
  {
    hide Do, HelloWritten, InThread, FurtherOut, Leads;
    var io, left := ios[0], |k.wire.frame| - k.wire.sent;
    var m := HelloWritten(k, io);
    n := Moves(io, left);
    HelloTurn(k, io);
    HelloWriteStep(s, c, k, io);
    var s0, s1 := InThread(s, c, k, Helloing(c)), InThread(s, c, m, HelloPc(m, c, io));
    LeadsOne(s0, HelloWrite(io), s1);
    if io.Failed? || n == left {
      assert HelloSteps(ios) == [HelloWrite(io)];
      k', n := m, if io.Failed? then 0 else n;
      HelloLoopPc(k, m, n, io, c);
    } else {
      FurtherOutFields(k, m, n);
      DecidesMore(left, ios);
      var rest;
      k', rest := HelloLoop(s, c, m, ios[1..]);
      MoreHelloTurns(k, m, k', n, rest, Succeeds(ios));
      n := n + rest;
      assert HelloSteps(ios) == [HelloWrite(io)] + HelloSteps(ios[1..]);
      LeadsThen(s0, [HelloWrite(io)], s1, HelloSteps(ios[1..]), InThread(s, c, k', if Succeeds(ios) then AwaitHello(c) else Releasing(c)));
    }
  }

  lemma HelloLoopPc(k: Conn, m: Conn, n: nat, io: Io, c: nat)
    requires HelloLoopEnds(k, m, n, !io.Failed?)
    ensures HelloPc(m, c, io) == if io.Failed? then Releasing(c) else AwaitHello(c)
  {
  }

  function EstablishSteps(ios: seq<Io>): seq<Step> {
    [Accepted, HandshakeDone] + HelloSteps(ios) + if Succeeds(ios) then [HelloReceived, Publish] else []
  }

  const NEW_CONN := Conn(false, false, Free, Wire([], [], [], [], 0, []), false, false, false, false, false, [], [], [])

  lemma AcceptedStep(s: State)
    requires !s.aborted && s.accept.Selecting?
    ensures Do(s, Accepted) == Some(s.(accept := Establishing(|s.conns|), conns := s.conns + [NEW_CONN]))
  {
  }

  /** The new connection after the hello has gone out, whole or cut. */
  lemma HelloAddsFrame(hello: Envelope, m: Conn, k': Conn, n: nat, ok: bool)
    requires m == NEW_CONN.(wire := Commit(NEW_CONN.wire, hello, None), writing := true) && HelloLoopEnds(m, k', n, ok)
    ensures n <= |Frame(hello)| && (ok <==> n == |Frame(hello)|)
    ensures k'.wire.committed == [hello] && k'.wire.out == Frame(hello)[..n]
    ensures k' == NEW_CONN.(wire := k'.wire, closed := !ok, ended := !ok)
    ensures AllOut(k'.wire) <==> ok
  {
    assert [] + Frame(hello)[0..n] == Frame(hello)[..n];
  }

  lemma UpToHello(s: State, ios: seq<Io>) returns (k': Conn, n: nat)
    requires !s.aborted && s.accept.Selecting? && Sendable(s.hello) && Decides(|Frame(s.hello)|, ios)
    ensures n <= |Frame(s.hello)| && (Succeeds(ios) <==> n == |Frame(s.hello)|)
    ensures k'.wire.committed == [s.hello] && k'.wire.out == Frame(s.hello)[..n] && (AllOut(k'.wire) <==> Succeeds(ios))
    ensures k' == NEW_CONN.(wire := k'.wire, closed := !Succeeds(ios), ended := !Succeeds(ios))
    ensures var s1 := s.(accept := Establishing(|s.conns|), conns := s.conns + [NEW_CONN]);
      Leads(s, [Accepted, HandshakeDone] + HelloSteps(ios),
            InThread(s1, |s.conns|, k', if Succeeds(ios) then AwaitHello(|s.conns|) else Releasing(|s.conns|)))
  {
    hide Do, Decides, HelloLoopEnds, Leads, InThread;
    var c := |s.conns|;
    var s1 := s.(accept := Establishing(c), conns := s.conns + [NEW_CONN]);
    AcceptedStep(s);
    InThreadNow(s1, c);
    HandshakeStep(s1, c, NEW_CONN);
    var m := NEW_CONN.(wire := Commit(NEW_CONN.wire, s.hello, None), writing := true);
    var s2 := InThread(s1, c, m, Helloing(c));
    LeadsOne(s, Accepted, s1);
    LeadsOneMore(s, [Accepted], s1, HandshakeDone, s2);
    assert [Accepted] + [HandshakeDone] == [Accepted, HandshakeDone];
    k', n := HelloLoop(s1, c, m, ios);
    HelloAddsFrame(s.hello, m, k', n, Succeeds(ios));
    LeadsThen(s, [Accepted, HandshakeDone], s2, HelloSteps(ios),
              InThread(s1, c, k', if Succeeds(ios) then AwaitHello(c) else Releasing(c)));
  }

  /**
   * A connection no other thread gets in between of, while nothing is active: it comes up, its hello
   * out and nothing else, and is the active one, exactly if no SSL call of the hello fails; if one
   * does it is closed with the hello cut, and nothing is published.
   */
  lemma UndisturbedEstablish(s: State, ios: seq<Io>) returns (s': State, n: nat)
    requires !s.aborted && s.accept.Selecting? && s.activePeer.None? && Sendable(s.hello) && Decides(|Frame(s.hello)|, ios)
    ensures Leads(s, EstablishSteps(ios), s')
    ensures |s'.conns| == |s.conns| + 1 && s'.conns[..|s.conns|] == s.conns && s'.sends == s.sends && s'.stops == s.stops
    ensures var c := |s.conns|;
      var k := s'.conns[c];
      if Succeeds(ios) then
        && s'.accept == Running(c) && s'.activePeer == s'.activeStream == s'.activeSocket == Some(c)
        && k.established && !k.closed && k.published && !k.ended && !k.released && AtRest(k)
        && k.wire.committed == [s.hello] && k.wire.out == Frame(s.hello)
        && k.handled == [] && k.answers == [] && k.acks == []
      else
        && s'.accept == Releasing(c) && s'.activePeer.None?
        && !k.established && k.closed && !k.published && n < |Frame(s.hello)| && k.wire.out == Frame(s.hello)[..n]
  {
    hide Do, Decides, Leads;
    var k;
    k, n := UpToHello(s, ios);
    var c := |s.conns|;
    var s1 := s.(accept := Establishing(c), conns := s.conns + [NEW_CONN]);
    assert Frame(s.hello)[..|Frame(s.hello)|] == Frame(s.hello);
    if Succeeds(ios) {
      var s3 := InThread(s1, c, k, AwaitHello(c));
      var k4 := k.(established := true, greeted := true);
      var s4 := InThread(s1, c, k4, Publishing(c));
      s' := InThread(s1, c, k4.(published := true), Running(c)).(activeSocket := Some(c), activeStream := Some(c), activePeer := Some(c));
      HelloReceivedStep(s1, c, k);
      PublishStep(s1, c, k4);
      LeadsOne(s3, HelloReceived, s4);
      LeadsOneMore(s3, [HelloReceived], s4, Publish, s');
      assert [HelloReceived] + [Publish] == [HelloReceived, Publish];
      LeadsThen(s, [Accepted, HandshakeDone] + HelloSteps(ios), s3, [HelloReceived, Publish], s');
    } else {
      s' := InThread(s1, c, k, Releasing(c));
      assert EstablishSteps(ios) == [Accepted, HandshakeDone] + HelloSteps(ios);
    }
  }
}

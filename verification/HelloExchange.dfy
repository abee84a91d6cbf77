/**
 * Two ends introducing themselves over a pair of FIFO pipes: each writes its hello in whatever
 * pieces the transport takes, then reads the other's in whatever pieces it gives.
 */
module HelloExchange {
  import opened Bytes
  import opened Wrappers
  import opened Protocol
  import opened Framing
  import opened Messages
  import opened SessionPeer
  import opened KotlinCodecs

  /** A native or an Android end, the role it expects of its peer, and the hello it sends. */
  datatype Side = Native(expects: Role, hello: SessionHello) | Kotlin(hello: SessionHello)

  function Expected(side: Side): Role {
    match side
    case Native(expects, _) => expects
    case Kotlin(_) => Messages.Windows
  }

  datatype Judgement = More(missing: nat) | Refuse | Accept(hello: SessionHello)

  function HelloOf(h: KHello): (r: Option<SessionHello>)
    ensures r.Some? ==> KHello(r.value.role, r.value.nonce, r.value.deviceId, r.value.capabilities, r.value.maxFrame) == h
  {
    if KHelloOk(h) then
      assert forall i | 0 <= i < |h.deviceId| :: 0 <= h.deviceId[i] < 0x100;
      Some(SessionHello(h.role, h.nonce, h.deviceId, h.capabilities, h.maxFrame))
    else None
  }

  /** What an end makes of the bytes it has taken so far. */
  function Judge(side: Side, taken: seq<byte>): Judgement {
    match side
    case Native(expects, _) =>
      if |taken| < HEADER_SIZE then More(HEADER_SIZE - |taken|)
      else if !GoodHeader(taken) then Refuse
      else if |taken| < HEADER_SIZE + U32At(taken, 16) then More(HEADER_SIZE + U32At(taken, 16) - |taken|)
      else
        var found := HelloInFront(taken, expects);
        if found.Some? then Accept(found.value.0) else Refuse
    case Kotlin(_) =>
      match KReadHello(taken)
      case KHelloMore(n) => More(n)
      case KHelloRefused => Refuse
      case KHelloWhole(h) => if HelloOf(h).Some? then Accept(HelloOf(h).value) else Refuse
  }

  datatype Pc = Sending | Reading | Met(hello: SessionHello) | Broken

  /** One end: `wire` is what it has written, `taken` what it has read of the other's wire. */
  datatype End = End(side: Side, pc: Pc, wire: seq<byte>, taken: seq<byte>)

  function Begin(side: Side): End {
    End(side, if ValidHello(side.hello) then Sending else Broken, [], [])
  }

  function HelloFrame(side: Side): seq<byte>
    requires ValidHello(side.hello)
  {
    Frame(HelloEnvelope(side.hello))
  }

  function DoWrite(e: End, n: nat): Option<End> {
    if !e.pc.Sending? || n == 0 || !ValidHello(e.side.hello) || |e.wire| + n > |HelloFrame(e.side)| then None
    else
      var wire := e.wire + HelloFrame(e.side)[|e.wire|..|e.wire| + n];
      Some(e.(wire := wire, pc := if |wire| == |HelloFrame(e.side)| then Reading else Sending))
  }

  function Settle(e: End): End {
    match Judge(e.side, e.taken)
    case More(_) => e
    case Refuse => e.(pc := Broken)
    case Accept(hello) => e.(pc := Met(hello))
  }

  function DoRead(e: End, other: End, n: nat): Option<End> {
    if !e.pc.Reading? || n == 0 || |e.taken| + n > |other.wire| then None
    else match Judge(e.side, e.taken)
      case More(missing) =>
        if n > missing then None
        else Some(Settle(e.(taken := e.taken + other.wire[|e.taken|..|e.taken| + n])))
      case _ => None
  }

  datatype Exchange = Exchange(a: End, b: End)

  datatype Step = Write(first: bool, n: nat) | Read(first: bool, n: nat) | Break(first: bool)

  function Next(x: Exchange, step: Step): Option<Exchange> {
    match step
    case Write(first, n) =>
      if first then (match DoWrite(x.a, n) case Some(a) => Some(x.(a := a)) case None => None)
      else (match DoWrite(x.b, n) case Some(b) => Some(x.(b := b)) case None => None)
    case Read(first, n) =>
      if first then (match DoRead(x.a, x.b, n) case Some(a) => Some(x.(a := a)) case None => None)
      else (match DoRead(x.b, x.a, n) case Some(b) => Some(x.(b := b)) case None => None)
    case Break(first) =>
      if first then Some(x.(a := x.a.(pc := Broken))) else Some(x.(b := x.b.(pc := Broken)))
  }

  /** A run of an exchange from its beginning, step by step. */
  ghost predicate Run(p: Side, q: Side, trace: seq<Exchange>, steps: seq<Step>) {
    && |trace| == |steps| + 1 && trace[0] == Exchange(Begin(p), Begin(q))
    && forall i {:trigger steps[i]} | 0 <= i < |steps| :: Next(trace[i], steps[i]) == Some(trace[i + 1])
  }

  /** One end, with respect to the other's wire. */
  predicate EndOk(e: End, other: End) {
    && (if ValidHello(e.side.hello) then e.wire <= HelloFrame(e.side) else e.wire == [])
    && e.taken <= other.wire
    && (e.pc.Sending? ==> ValidHello(e.side.hello) && |e.wire| < |HelloFrame(e.side)| && e.taken == [])
    && (e.pc.Reading? || e.pc.Met? ==> ValidHello(e.side.hello) && e.wire == HelloFrame(e.side))
    && (e.pc.Reading? ==> Judge(e.side, e.taken).More?)
    && (e.pc.Met? ==> Judge(e.side, e.taken) == Accept(e.pc.hello))
  }

  predicate ExchangeOk(x: Exchange) {
    EndOk(x.a, x.b) && EndOk(x.b, x.a)
  }

  lemma JudgeOfNothing(side: Side)
    ensures Judge(side, []) == More(20)
  {
  }

  lemma WriteKeeps(e: End, other: End, n: nat)
    requires EndOk(e, other) && EndOk(other, e) && DoWrite(e, n).Some?
    ensures EndOk(DoWrite(e, n).value, other) && EndOk(other, DoWrite(e, n).value)
  {
    JudgeOfNothing(e.side);
    var frame := HelloFrame(e.side);
    assert e.wire + frame[|e.wire|..|e.wire| + n] == frame[..|e.wire| + n];
  }

  lemma TakenIsPrefix(e: End, other: End, n: nat)
    requires EndOk(e, other) && EndOk(other, e) && |e.taken| + n <= |other.wire|
    ensures e.taken + other.wire[|e.taken|..|e.taken| + n] == other.wire[..|e.taken| + n]
  {
  }

  lemma SettleKeeps(e: End, other: End)
    requires e.pc.Reading? && ValidHello(e.side.hello) && e.wire == HelloFrame(e.side)
    requires e.taken <= other.wire && EndOk(other, e)
    ensures EndOk(Settle(e), other) && EndOk(other, Settle(e))
  {
  }

  lemma ReadKeeps(e: End, other: End, n: nat)
    requires EndOk(e, other) && EndOk(other, e) && DoRead(e, other, n).Some?
    ensures EndOk(DoRead(e, other, n).value, other) && EndOk(other, DoRead(e, other, n).value)
  {
    TakenIsPrefix(e, other, n);
    SettleKeeps(e.(taken := e.taken + other.wire[|e.taken|..|e.taken| + n]), other);
  }

  lemma StepKeeps(x: Exchange, step: Step)
    requires ExchangeOk(x) && Next(x, step).Some?
    ensures ExchangeOk(Next(x, step).value)
    ensures Next(x, step).value.a.side == x.a.side && Next(x, step).value.b.side == x.b.side
  {
    match step
    case Write(first, n) => if first { WriteKeeps(x.a, x.b, n); } else { WriteKeeps(x.b, x.a, n); }
    case Read(first, n) => if first { ReadKeeps(x.a, x.b, n); } else { ReadKeeps(x.b, x.a, n); }
    case Break(_) =>
  }

  lemma BeginningIsOk(p: Side, q: Side)
    ensures EndOk(Begin(p), Begin(q))
  {
  }

  lemma {:induction false} ExchangeOverRuns(p: Side, q: Side, trace: seq<Exchange>, steps: seq<Step>, k: nat)
    requires Run(p, q, trace, steps) && k <= |steps|
    ensures ExchangeOk(trace[k]) && trace[k].a.side == p && trace[k].b.side == q
    decreases k
  {
    if k == 0 {
      BeginningIsOk(p, q);
      BeginningIsOk(q, p);
    } else {
      ExchangeOverRuns(p, q, trace, steps, k - 1);
      assert Next(trace[k - 1], steps[k - 1]) == Some(trace[k]);
      StepKeeps(trace[k - 1], steps[k - 1]);
    }
  }

  // ---- what an end can do next ----

  /**
   * The transport may cut anywhere: a writing end can send any piece of the rest of its hello, and a
   * reading end can take any piece of what is there, up to the end of the header and then up to the
   * end of the payload the header announces. No other end moves.
   */
  lemma AnyPieceMoves(e: End, other: End, n: nat)
    requires EndOk(e, other) && EndOk(other, e)
    ensures DoWrite(e, n).Some? <==> e.pc.Sending? && 1 <= n <= |HelloFrame(e.side)| - |e.wire|
    ensures DoWrite(e, n).Some? ==> DoWrite(e, n).value.wire == HelloFrame(e.side)[..|e.wire| + n]
    ensures DoRead(e, other, n).Some? <==>
      e.pc.Reading? && 1 <= n <= |other.wire| - |e.taken| && |e.taken| + n <= if |e.taken| < 20 then 20 else 20 + U32At(e.taken, 16)
    ensures DoRead(e, other, n).Some? ==> DoRead(e, other, n).value.taken == other.wire[..|e.taken| + n]
  {
    if DoWrite(e, n).Some? {
      assert e.wire + HelloFrame(e.side)[|e.wire|..|e.wire| + n] == HelloFrame(e.side)[..|e.wire| + n];
    }
    if DoRead(e, other, n).Some? {
      TakenIsPrefix(e, other, n);
    }
  }

  /** An end can break at any moment, and is not heard of again; the other goes on with what it can. */
  lemma BreakingIsFinal(x: Exchange, first: bool, step: Step)
    ensures Next(x, Break(first)).Some?
    ensures var y := Next(x, Break(first)).value;
      && (if first then y.b == x.b && y.a == x.a.(pc := Broken) else y.a == x.a && y.b == x.b.(pc := Broken))
      && (Next(y, step).Some? ==> if first then Next(y, step).value.a == y.a else Next(y, step).value.b == y.b)
  {
    var y := Next(x, Break(first)).value;
    assert step.Break? ==> Next(y, step).Some?;
  }

  // ---- what is accepted is what was sent ----

  /** The bytes an end accepts are one whole frame that carries the hello it ends up with. */
  lemma AcceptedIsOneFrame(side: Side, taken: seq<byte>) returns (e: Envelope)
    requires Judge(side, taken).Accept?
    ensures ParseNext(taken).Whole? && ParseNext(taken).envelope == e
    ensures DecodeSessionHello(e.payload) == Ok(Judge(side, taken).hello)
    ensures Judge(side, taken).hello.role == Expected(side)
  {
    match side
    case Native(_, _) =>
      e := ParseNext(taken).envelope;
    case Kotlin(_) =>
      var end := 20 + U32At(taken, 16);
      EnvelopeDecodersAgree(taken[..end]);
      e := Decode(taken[..end]).value;
      HelloDecodersAgree(e.payload);
      SliceReads(taken, end);
  }

  lemma HelloFrameReads(side: Side, more: seq<byte>)
    requires ValidHello(side.hello)
    ensures ParseNext(HelloFrame(side) + more) == Whole(HelloEnvelope(side.hello), more)
    ensures DecodeSessionHello(HelloEnvelope(side.hello).payload) == Ok(side.hello)
  {
    WholeIffFrameInFront(HelloFrame(side) + more, HelloEnvelope(side.hello), more);
    HelloDecodeInvertsEncode(side.hello);
  }

  lemma AcceptedIsTheHelloSent(side: Side, taken: seq<byte>, sender: Side)
    requires ValidHello(sender.hello) && taken <= HelloFrame(sender) && Judge(side, taken).Accept?
    ensures taken == HelloFrame(sender) && Judge(side, taken).hello == sender.hello
  {
    var e := AcceptedIsOneFrame(side, taken);
    if taken != HelloFrame(sender) {
      CutFrameIsIncomplete(HelloEnvelope(sender.hello), taken);
    }
    assert HelloFrame(sender) + [] == HelloFrame(sender);
    HelloFrameReads(sender, []);
  }

  /**
   * However the exchange went, an end that is done holds exactly the hello the other end sent, in
   * the role it expected, and has taken that hello's frame and not a byte more.
   */
  lemma DoneHoldsTheOthersHello(p: Side, q: Side, trace: seq<Exchange>, steps: seq<Step>, k: nat)
    requires Run(p, q, trace, steps) && k <= |steps|
    ensures var x := trace[k];
      && (x.a.pc.Met? ==> x.a.pc.hello == q.hello && q.hello.role == Expected(p) && ValidHello(q.hello) && x.a.taken == HelloFrame(q))
      && (x.b.pc.Met? ==> x.b.pc.hello == p.hello && p.hello.role == Expected(q) && ValidHello(p.hello) && x.b.taken == HelloFrame(p))
  {
    ExchangeOverRuns(p, q, trace, steps, k);
    var x := trace[k];
    if x.a.pc.Met? {
      DoneHolds(x.a, x.b);
    }
    if x.b.pc.Met? {
      DoneHolds(x.b, x.a);
    }
  }

  lemma DoneHolds(e: End, other: End)
    requires EndOk(e, other) && EndOk(other, e) && e.pc.Met?
    ensures ValidHello(other.side.hello) && e.taken == HelloFrame(other.side)
    ensures e.pc.hello == other.side.hello && other.side.hello.role == Expected(e.side)
  {
    var envelope := AcceptedIsOneFrame(e.side, e.taken);
    AcceptedIsTheHelloSent(e.side, e.taken, other.side);
  }

  // ---- and without failures the exchange succeeds ----

  predicate Compatible(p: Side, q: Side) {
    && ValidHello(p.hello) && ValidHello(q.hello)
    && p.hello.role == Expected(q) && q.hello.role == Expected(p)
  }

  /** On a good hello of the expected role an end waits for the rest until it is all there, then accepts. */
  lemma GoodHelloIsAccepted(side: Side, sender: Side, taken: seq<byte>)
    requires ValidHello(sender.hello) && sender.hello.role == Expected(side) && taken <= HelloFrame(sender)
    ensures taken == HelloFrame(sender) ==> Judge(side, taken) == Accept(sender.hello)
    ensures taken != HelloFrame(sender) ==> Judge(side, taken).More? && 0 < Judge(side, taken).missing <= |HelloFrame(sender)| - |taken|
  {
    var e := HelloEnvelope(sender.hello);
    if HEADER_SIZE <= |taken| {
      assert taken[..HEADER_SIZE] == HelloFrame(sender)[..HEADER_SIZE] == Header(e);
      HeaderReadsBack(e, taken);
      if taken == HelloFrame(sender) {
        WholeHelloIsAccepted(side, sender);
      }
    }
  }

  lemma WholeHelloIsAccepted(side: Side, sender: Side)
    requires ValidHello(sender.hello) && sender.hello.role == Expected(side)
    ensures Judge(side, HelloFrame(sender)) == Accept(sender.hello)
  {
    var e := HelloEnvelope(sender.hello);
    var frame := HelloFrame(sender);
    assert frame + [] == frame;
    HelloFrameReads(sender, []);
    assert frame[..HEADER_SIZE] == Header(e);
    HeaderReadsBack(e, frame);
    match side
    case Native(_, _) =>
    case Kotlin(_) =>
      assert frame[..HEADER_SIZE + |e.payload|] == frame;
      DecodeInvertsEncode(e);
      EnvelopeDecodersAgree(frame);
      HelloDecodersAgree(e.payload);
  }

  /** The bytes still to be written and read. */
  function Remaining(p: Side, q: Side, x: Exchange): int
    requires ValidHello(p.hello) && ValidHello(q.hello)
  {
    2 * |HelloFrame(p)| + 2 * |HelloFrame(q)| - |x.a.wire| - |x.b.wire| - |x.a.taken| - |x.b.taken|
  }

  predicate Unbroken(steps: seq<Step>) {
    forall i | 0 <= i < |steps| :: !steps[i].Break?
  }

  predicate NotFailed(x: Exchange) {
    !x.a.pc.Broken? && !x.b.pc.Broken?
  }

  lemma SettledWell(e: End, other: End, n: nat)
    requires EndOk(e, other) && EndOk(other, e) && DoRead(e, other, n).Some?
    requires ValidHello(other.side.hello) && other.side.hello.role == Expected(e.side)
    ensures !DoRead(e, other, n).value.pc.Broken?
  {
    TakenIsPrefix(e, other, n);
    SettlesWell(e.(taken := e.taken + other.wire[|e.taken|..|e.taken| + n]), other.side);
  }

  lemma SettlesWell(e: End, sender: Side)
    requires e.pc.Reading? && ValidHello(sender.hello) && sender.hello.role == Expected(e.side) && e.taken <= HelloFrame(sender)
    ensures !Settle(e).pc.Broken?
  {
    GoodHelloIsAccepted(e.side, sender, e.taken);
  }

  lemma StepShrinks(p: Side, q: Side, x: Exchange, step: Step)
    requires Compatible(p, q) && x.a.side == p && x.b.side == q
    requires ExchangeOk(x) && NotFailed(x) && !step.Break? && Next(x, step).Some?
    ensures NotFailed(Next(x, step).value)
    ensures Remaining(p, q, Next(x, step).value) < Remaining(p, q, x)
  {
    if step.Read? {
      if step.first { SettledWell(x.a, x.b, step.n); } else { SettledWell(x.b, x.a, step.n); }
    }
  }

  /** Unless both ends are done, one of them can move a byte. */
  lemma SomeoneCanMove(p: Side, q: Side, x: Exchange) returns (step: Step)
    requires Compatible(p, q) && x.a.side == p && x.b.side == q
    requires ExchangeOk(x) && NotFailed(x) && !(x.a.pc.Met? && x.b.pc.Met?)
    ensures !step.Break? && Next(x, step).Some?
  {
    if x.a.pc.Sending? {
      step := Write(true, 1);
    } else if x.b.pc.Sending? {
      step := Write(false, 1);
    } else if x.a.pc.Reading? {
      GoodHelloIsAccepted(p, q, x.a.taken);
      step := Read(true, 1);
    } else {
      GoodHelloIsAccepted(q, p, x.b.taken);
      step := Read(false, 1);
    }
  }

  lemma {:induction false} UnbrokenRunsDoNotFail(p: Side, q: Side, trace: seq<Exchange>, steps: seq<Step>, k: nat)
    requires Compatible(p, q) && Unbroken(steps) && Run(p, q, trace, steps) && k <= |steps|
    ensures NotFailed(trace[k])
    ensures Remaining(p, q, trace[k]) <= 2 * |HelloFrame(p)| + 2 * |HelloFrame(q)| - k
    decreases k
  {
    if k > 0 {
      UnbrokenRunsDoNotFail(p, q, trace, steps, k - 1);
      ExchangeOverRuns(p, q, trace, steps, k - 1);
      assert Next(trace[k - 1], steps[k - 1]) == Some(trace[k]);
      StepShrinks(p, q, trace[k - 1], steps[k - 1]);
    }
  }

  /**
   * Because both ends write before they read, an unbroken exchange between compatible ends never
   * gets stuck: it takes at most as many steps as there are bytes to move, and where no end can
   * move any more both are done.
   */
  lemma MaximalExchangesSucceed(p: Side, q: Side, trace: seq<Exchange>, steps: seq<Step>)
    requires Compatible(p, q) && Unbroken(steps) && Run(p, q, trace, steps)
    ensures |steps| <= 2 * |HelloFrame(p)| + 2 * |HelloFrame(q)|
    ensures var x := trace[|steps|];
      (forall step: Step | !step.Break? :: Next(x, step).None?) ==> x.a.pc == Met(q.hello) && x.b.pc == Met(p.hello)
  {
    UnbrokenRunsDoNotFail(p, q, trace, steps, |steps|);
    ExchangeOverRuns(p, q, trace, steps, |steps|);
    var x := trace[|steps|];
    if x.a.pc.Met? && x.b.pc.Met? {
      DoneHoldsTheOthersHello(p, q, trace, steps, |steps|);
    } else {
      var step := SomeoneCanMove(p, q, x);
    }
  }
}

/** Reading envelopes off the front of a byte stream, independently of how the bytes arrive. */
module Framing {
  import opened Bytes
  import opened Wrappers
  import opened Protocol

  datatype Next =
    | Whole(envelope: Envelope, rest: seq<byte>)
    | Incomplete
    | Malformed

  predicate GoodHeader(bytes: seq<byte>)
    requires HEADER_SIZE <= |bytes|
  {
    && U16At(bytes, 0) == MAGIC
    && bytes[2] == VERSION
    && ChannelLimit(bytes[3]).Some?
    && 0 < U32At(bytes, 16) <= ChannelLimit(bytes[3]).value
  }

  /** What a reader that stops at the first bad header finds at the front of `bytes`. */
  function ParseNext(bytes: seq<byte>): (n: Next)
    ensures n.Whole? ==> |n.rest| < |bytes|
  {
    if |bytes| < HEADER_SIZE then Incomplete
    else if !GoodHeader(bytes) then Malformed
    else
      var end := HEADER_SIZE + U32At(bytes, 16);
      if |bytes| < end then Incomplete
      else match Decode(bytes[..end])
        case Ok(e) => Whole(e, bytes[end..])
        case Err(_) => Malformed
  }

  /** Concatenated frames. */
  function FramesOf(es: seq<Envelope>): seq<byte> {
    if es == [] then [] else FramesOf(es[..|es| - 1]) + Frame(es[|es| - 1])
  }

  ghost predicate AllSendable(es: seq<Envelope>) {
    forall i | 0 <= i < |es| :: Sendable(es[i])
  }

  /** Nothing, or the beginning of one sendable frame. */
  ghost predicate CutFrame(cut: seq<byte>) {
    cut == [] || exists e: Envelope :: Sendable(e) && cut < Frame(e)
  }

  /** All the envelopes a reader gets out of `bytes` before it blocks or fails. */
  function ParseAll(bytes: seq<byte>): (es: seq<Envelope>) {
    match ParseNext(bytes)
    case Whole(e, rest) => [e] + ParseAll(rest)
    case _ => []
  }

  lemma ParseAllStep(bytes: seq<byte>, e: Envelope, rest: seq<byte>)
    requires ParseNext(bytes) == Whole(e, rest)
    ensures ParseAll(bytes) == [e] + ParseAll(rest)
  {
  }

  lemma SliceReads(bytes: seq<byte>, end: nat)
    requires HEADER_SIZE <= end <= |bytes|
    ensures GoodHeader(bytes) <==> GoodHeader(bytes[..end])
    ensures U32At(bytes, 16) == U32At(bytes[..end], 16)
    ensures U64At(bytes, 8) == U64At(bytes[..end], 8)
  {
    assert bytes[..end][0..2] == bytes[0..2];
    assert bytes[..end][8..16] == bytes[8..16];
    assert bytes[..end][16..20] == bytes[16..20];
  }

  /** Once the header checks pass and the payload is in, only a zero request id is left to refuse. */
  lemma OnlyZeroRequestIdIsLeft(bytes: seq<byte>)
    requires HEADER_SIZE <= |bytes| && GoodHeader(bytes)
    requires HEADER_SIZE + U32At(bytes, 16) <= |bytes|
    ensures ParseNext(bytes).Malformed? <==> U64At(bytes, 8) == 0
    ensures ParseNext(bytes).Malformed? ==> Decode(bytes[..HEADER_SIZE + U32At(bytes, 16)]) == Err("zero request id")
  {
    SliceReads(bytes, HEADER_SIZE + U32At(bytes, 16));
  }

  /** The reader finds e exactly when the bytes start with e's frame, and leaves what follows it. */
  lemma WholeIffFrameInFront(bytes: seq<byte>, e: Envelope, rest: seq<byte>)
    ensures ParseNext(bytes) == Whole(e, rest) <==> Sendable(e) && bytes == Frame(e) + rest
  {
    if ParseNext(bytes) == Whole(e, rest) {
      var end := HEADER_SIZE + U32At(bytes, 16);
      EncodeInvertsDecode(bytes[..end]);
      assert bytes == bytes[..end] + bytes[end..];
    }
    if Sendable(e) && bytes == Frame(e) + rest {
      assert bytes[..HEADER_SIZE] == Header(e);
      HeaderReadsBack(e, bytes);
      var end := HEADER_SIZE + |e.payload|;
      assert bytes[..end] == Frame(e) && bytes[end..] == rest;
      DecodeInvertsEncode(e);
    }
  }

  /** A frame that has been cut short keeps the reader waiting; it never looks like anything else. */
  lemma CutFrameIsIncomplete(e: Envelope, part: seq<byte>)
    requires Sendable(e) && part < Frame(e)
    ensures ParseNext(part) == Incomplete
  {
    if HEADER_SIZE <= |part| {
      assert part[..HEADER_SIZE] == Frame(e)[..HEADER_SIZE] == Header(e);
      HeaderReadsBack(e, part);
    }
  }

  lemma CutIsNotWhole(cut: seq<byte>, part: seq<byte>)
    requires CutFrame(cut) && part <= cut
    ensures ParseNext(part) == Incomplete
  {
    if part != [] {
      var e: Envelope :| Sendable(e) && cut < Frame(e);
      CutFrameIsIncomplete(e, part);
    }
  }

  lemma FramesOfCons(es: seq<Envelope>)
    requires es != []
    ensures FramesOf(es) == Frame(es[0]) + FramesOf(es[1..])
  {
    if |es| > 1 {
      var front := es[..|es| - 1];
      FramesOfCons(front);
      assert es[1..][..|es| - 2] == front[1..];
    } else {
      assert es[..0] == [] && es[1..] == [];
      assert FramesOf(es) == FramesOf([]) + Frame(es[0]);
    }
  }

  lemma FramesOfAppend(es: seq<Envelope>, e: Envelope)
    ensures FramesOf(es + [e]) == FramesOf(es) + Frame(e)
  {
    assert (es + [e])[..|es|] == es;
  }

  lemma {:induction false} FramesOfPrefix(ds: seq<Envelope>, es: seq<Envelope>)
    requires ds <= es
    ensures FramesOf(ds) <= FramesOf(es)
  {
    if ds != es {
      FramesOfPrefix(ds, es[..|es| - 1]);
    } else {
      assert ds == es;
    }
  }

  /** Whole frames in front of any bytes read back as exactly those envelopes, and the rest as before. */
  lemma {:induction false} ParseAllAfterFrames(es: seq<Envelope>, later: seq<byte>)
    requires AllSendable(es)
    ensures ParseAll(FramesOf(es) + later) == es + ParseAll(later)
    decreases |es|
  {
    if es == [] {
      assert FramesOf(es) + later == later;
    } else {
      var bytes, rest := FramesOf(es) + later, FramesOf(es[1..]) + later;
      FirstFrameInFront(es, later);
      WholeIffFrameInFront(bytes, es[0], rest);
      ParseAllAfterFrames(es[1..], later);
      FirstAndRest(es, ParseAll(later));
    }
  }

  lemma FirstFrameInFront(es: seq<Envelope>, later: seq<byte>)
    requires es != []
    ensures FramesOf(es) + later == Frame(es[0]) + (FramesOf(es[1..]) + later)
  {
    FramesOfCons(es);
  }

  lemma FirstAndRest(es: seq<Envelope>, more: seq<Envelope>)
    requires es != []
    ensures [es[0]] + (es[1..] + more) == es + more
  {
  }

  /** Followed by something that is not a frame they are all there is. */
  lemma ParseAllReadsFrames(es: seq<Envelope>, tail: seq<byte>)
    requires AllSendable(es)
    requires !ParseNext(tail).Whole?
    ensures ParseAll(FramesOf(es) + tail) == es
  {
    ParseAllAfterFrames(es, tail);
  }

  /** A concatenation of frames parses in exactly one way, whatever cut frame follows it. */
  lemma FramesParseOneWay(ds: seq<Envelope>, es: seq<Envelope>, p: seq<byte>, q: seq<byte>)
    requires AllSendable(ds) && AllSendable(es)
    requires !ParseNext(p).Whole? && !ParseNext(q).Whole?
    requires FramesOf(ds) + p == FramesOf(es) + q
    ensures ds == es && p == q
  {
    ParseAllReadsFrames(ds, p);
    ParseAllReadsFrames(es, q);
    assert p == (FramesOf(ds) + p)[|FramesOf(ds)|..];
    assert q == (FramesOf(es) + q)[|FramesOf(es)|..];
  }

  /** Everything a reader has got out of a prefix of the stream is a prefix of what was framed. */
  lemma {:induction false} ArrivedIsPrefixOfSent(es: seq<Envelope>, cut: seq<byte>, arrived: seq<byte>)
    requires AllSendable(es)
    requires CutFrame(cut)
    requires arrived <= FramesOf(es) + cut
    ensures ParseAll(arrived) <= es
    decreases |es|
  {
    if es == [] {
      assert arrived <= cut;
      CutIsNotWhole(cut, arrived);
    } else {
      var first := Frame(es[0]);
      FirstFrameInFront(es, cut);
      PrefixOfConcat(first, FramesOf(es[1..]) + cut, arrived);
      if |arrived| < |first| {
        CutFrameIsIncomplete(es[0], arrived);
      } else {
        ArrivedIsPrefixOfSent(es[1..], cut, arrived[|first|..]);
        FirstArrived(es, arrived[|first|..]);
      }
    }
  }

  lemma FirstArrived(es: seq<Envelope>, later: seq<byte>)
    requires es != [] && Sendable(es[0])
    requires ParseAll(later) <= es[1..]
    ensures ParseAll(Frame(es[0]) + later) <= es
  {
    WholeIffFrameInFront(Frame(es[0]) + later, es[0], later);
    FirstIsPrefix(es, ParseAll(later));
  }

  lemma FirstIsPrefix(es: seq<Envelope>, more: seq<Envelope>)
    requires es != [] && more <= es[1..]
    ensures [es[0]] + more <= es
  {
  }

  lemma PrefixOfConcat(a: seq<byte>, b: seq<byte>, p: seq<byte>)
    requires p <= a + b
    ensures |p| < |a| ==> p < a
    ensures |p| >= |a| ==> p == a + p[|a|..] && p[|a|..] <= b
  {
    assert p == (a + b)[..|p|];
    if |p| < |a| {
      assert p == a[..|p|];
    } else {
      assert p[..|a|] == a;
      assert p[|a|..] == b[..|p| - |a|];
    }
  }

  /** The bytes a reader has taken off the stream are the frames of what it got. */
  lemma {:induction false} ParsedAreSendable(bytes: seq<byte>)
    ensures AllSendable(ParseAll(bytes))
    ensures FramesOf(ParseAll(bytes)) <= bytes
    decreases |bytes|
  {
    match ParseNext(bytes)
    case Whole(e, rest) =>
      WholeIffFrameInFront(bytes, e, rest);
      ParsedAreSendable(rest);
      FramesOfCons(ParseAll(bytes));
      assert ParseAll(bytes)[1..] == ParseAll(rest);
      assert bytes == Frame(e) + rest;
    case _ =>
  }
}

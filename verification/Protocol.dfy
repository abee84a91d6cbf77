/** The envelope codec: a 20-byte big-endian header and a payload bounded by its channel. */
module Protocol {
  import opened Bytes
  import opened Wrappers

  const MAGIC: u16 := 0x5742
  const VERSION: byte := 1
  const HEADER_SIZE := 20

  datatype Envelope = Envelope(channel: byte, kind: u16, flags: u16, requestId: u64, payload: seq<byte>)

  function ChannelLimit(channel: byte): (limit: Option<nat>)
    ensures limit.Some? <==> 1 <= channel <= 5
    ensures limit.Some? ==> 0 < limit.value <= 4 * 1024 * 1024
  {
    match channel
    case 1 => Some(64 * 1024)
    case 2 => Some(4 * 1024 * 1024)
    case 3 => Some(1024 * 1024)
    case 4 => Some(1024 * 1024)
    case 5 => Some(256 * 1024)
    case _ => None
  }

  /** What the wire format can carry. */
  predicate Sendable(e: Envelope) {
    && ChannelLimit(e.channel).Some?
    && e.requestId != 0
    && 0 < |e.payload| <= ChannelLimit(e.channel).value
  }

  function Header(e: Envelope): (h: seq<byte>)
    ensures |h| == HEADER_SIZE
  {
    ToBytes(MAGIC, 2) + [VERSION, e.channel] + ToBytes(e.kind, 2) + ToBytes(e.flags, 2)
    + ToBytes(e.requestId, 8) + ToBytes(|e.payload|, 4)
  }

  function Frame(e: Envelope): (f: seq<byte>)
    ensures |f| == HEADER_SIZE + |e.payload|
  {
    Header(e) + e.payload
  }

  function Encode(e: Envelope): Result<seq<byte>> {
    if ChannelLimit(e.channel).None? then Err("unknown channel")
    else if e.requestId == 0 then Err("zero request id")
    else if e.payload == [] || |e.payload| > ChannelLimit(e.channel).value then Err("payload exceeds channel limit")
    else Ok(Frame(e))
  }

  function Decode(frame: seq<byte>): Result<Envelope> {
    if |frame| < HEADER_SIZE then Err("truncated header")
    else if U16At(frame, 0) != MAGIC then Err("bad magic")
    else if frame[2] != VERSION then Err("unsupported version")
    else if ChannelLimit(frame[3]).None? then Err("unknown channel")
    else
      var length := U32At(frame, 16);
      if U64At(frame, 8) == 0 then Err("zero request id")
      else if length == 0 || length > ChannelLimit(frame[3]).value then Err("invalid payload length")
      else if |frame| != HEADER_SIZE + length then Err("frame length mismatch")
      else Ok(Envelope(frame[3], U16At(frame, 4), U16At(frame, 6), U64At(frame, 8), frame[HEADER_SIZE..]))
  }

  /** The encoder as it runs: checks, then a vector grown field by field. */
  method EncodeFrame(e: Envelope) returns (r: Result<seq<byte>>)
    ensures r == Encode(e)
  {
    var limit := ChannelLimit(e.channel);
    if limit.None? {
      return Err("unknown channel");
    }
    if e.requestId == 0 {
      return Err("zero request id");
    }
    if e.payload == [] || |e.payload| > limit.value {
      return Err("payload exceeds channel limit");
    }
    var out := ToBytes(MAGIC, 2);
    out := out + [VERSION];
    out := out + [e.channel];
    out := out + ToBytes(e.kind, 2);
    out := out + ToBytes(e.flags, 2);
    out := PutU64(out, e.requestId);
    out := out + ToBytes(|e.payload|, 4);
    out := out + e.payload;
    assert out == Frame(e);
    return Ok(out);
  }

  method DecodeFrame(frame: seq<byte>) returns (r: Result<Envelope>)
    ensures r == Decode(frame)
  {
    if |frame| < HEADER_SIZE {
      return Err("truncated header");
    }
    if U16At(frame, 0) != MAGIC {
      return Err("bad magic");
    }
    if frame[2] != VERSION {
      return Err("unsupported version");
    }
    var limit := ChannelLimit(frame[3]);
    if limit.None? {
      return Err("unknown channel");
    }
    var length := U32At(frame, 16);
    var requestId := GetU64(frame, 8);
    if requestId == 0 {
      return Err("zero request id");
    }
    if length == 0 || length > limit.value {
      return Err("invalid payload length");
    }
    if |frame| != HEADER_SIZE + length {
      return Err("frame length mismatch");
    }
    return Ok(Envelope(frame[3], U16At(frame, 4), U16At(frame, 6), requestId, frame[HEADER_SIZE..]));
  }

  /** The header of any byte string that starts like a frame of e reads back e's fields. */
  lemma HeaderReadsBack(e: Envelope, bytes: seq<byte>)
    requires HEADER_SIZE <= |bytes| && bytes[..HEADER_SIZE] == Header(e)
    requires |e.payload| < 0x1_0000_0000
    ensures U16At(bytes, 0) == MAGIC && bytes[2] == VERSION && bytes[3] == e.channel
    ensures U16At(bytes, 4) == e.kind && U16At(bytes, 6) == e.flags
    ensures U64At(bytes, 8) == e.requestId && U32At(bytes, 16) == |e.payload|
  {
    var h := Header(e);
    assert bytes[0..2] == h[0..2] && bytes[4..6] == h[4..6] && bytes[6..8] == h[6..8];
    assert bytes[8..16] == h[8..16] && bytes[16..20] == h[16..20];
    assert h[0..2] == ToBytes(MAGIC, 2);
    assert h[2] == VERSION && h[3] == e.channel;
    assert bytes[2] == bytes[..HEADER_SIZE][2] && bytes[3] == bytes[..HEADER_SIZE][3];
    assert h[4..6] == ToBytes(e.kind, 2);
    assert h[6..8] == ToBytes(e.flags, 2);
    assert h[8..16] == ToBytes(e.requestId, 8);
    assert h[16..20] == ToBytes(|e.payload|, 4);
    FieldRoundTrip(MAGIC, 2);
    FieldRoundTrip(e.kind, 2);
    FieldRoundTrip(e.flags, 2);
    FieldRoundTrip(e.requestId, 8);
    FieldRoundTrip(|e.payload|, 4);
  }

  /** Encoding succeeds exactly on sendable envelopes, and decoding gives the envelope back. */
  lemma DecodeInvertsEncode(e: Envelope)
    ensures Encode(e).Ok? <==> Sendable(e)
    ensures Sendable(e) ==> Encode(e) == Ok(Frame(e)) && Decode(Frame(e)) == Ok(e)
  {
    if Sendable(e) {
      assert Frame(e)[..HEADER_SIZE] == Header(e);
      assert Frame(e)[HEADER_SIZE..] == e.payload;
      HeaderReadsBack(e, Frame(e));
    }
  }

  /** Every accepted frame is the one its envelope encodes to: the wire form is canonical. */
  lemma EncodeInvertsDecode(frame: seq<byte>)
    requires Decode(frame).Ok?
    ensures Sendable(Decode(frame).value)
    ensures Encode(Decode(frame).value) == Ok(frame)
  {
    var e := Decode(frame).value;
    ToBytesOfToNat(frame[0..2]);
    ToBytesOfToNat(frame[4..6]);
    ToBytesOfToNat(frame[6..8]);
    ToBytesOfToNat(frame[8..16]);
    ToBytesOfToNat(frame[16..20]);
    assert frame[..HEADER_SIZE] == frame[0..2] + frame[2..4] + frame[4..6] + frame[6..8] + frame[8..16] + frame[16..20];
    assert frame[2..4] == [frame[2], frame[3]];
    assert frame[..HEADER_SIZE] == Header(e);
    assert frame == frame[..HEADER_SIZE] + frame[HEADER_SIZE..];
  }

  /** No frame is a proper prefix of another. */
  lemma FramesArePrefixFree(f: seq<byte>, g: seq<byte>)
    requires Decode(f).Ok? && Decode(g).Ok?
    requires f <= g
    ensures f == g
  {
    assert f[16..20] == g[16..20];
    assert f[3] == g[3];
  }

  lemma FramesDiffer(d: Envelope, e: Envelope)
    requires Sendable(d) && Sendable(e)
    requires Frame(d) == Frame(e)
    ensures d == e
  {
    DecodeInvertsEncode(d);
    DecodeInvertsEncode(e);
  }
}

/** The Android decoders, over signed Int and Long, and their agreement with the Windows ones. */
module KotlinCodecs {
  import opened Bytes
  import opened Wrappers
  import opened Protocol
  import opened Framing
  import Messages
  import Audio
  import Input

  /** A big-endian java.nio.ByteBuffer over a byte array: every read moves the cursor. */
  class ByteBuffer {
    const data: seq<byte>
    var position: nat

    ghost predicate Valid()
      reads this
    {
      position <= |data|
    }

    constructor (data: seq<byte>)
      ensures Valid() && this.data == data && position == 0
    {
      this.data := data;
      position := 0;
    }

    method Get() returns (b: byte)
      requires Valid() && position + 1 <= |data|
      modifies this
      ensures Valid() && position == old(position) + 1 && b == data[old(position)]
    {
      b := data[position];
      position := position + 1;
    }

    method GetBytes(count: nat) returns (s: seq<byte>)
      requires Valid() && position + count <= |data|
      modifies this
      ensures Valid() && position == old(position) + count && s == data[old(position)..position]
    {
      s := data[position..position + count];
      position := position + count;
    }

    method GetShort() returns (v: int)
      requires Valid() && position + 2 <= |data|
      modifies this
      ensures Valid() && position == old(position) + 2 && v == Signed16(U16At(data, old(position)))
    {
      v := Signed16(U16At(data, position));
      position := position + 2;
    }

    method GetInt() returns (v: i32)
      requires Valid() && position + 4 <= |data|
      modifies this
      ensures Valid() && position == old(position) + 4 && v == Signed32(U32At(data, old(position)))
    {
      v := Signed32(U32At(data, position));
      position := position + 4;
    }

    method GetLong() returns (v: int)
      requires Valid() && position + 8 <= |data|
      modifies this
      ensures Valid() && position == old(position) + 8 && v == Signed64(U64At(data, old(position)))
    {
      v := Signed64(U64At(data, position));
      position := position + 8;
    }
  }

  // ---- envelopes ----

  datatype KEnvelope = KEnvelope(channel: int, kind: int, flags: int, requestId: int, payload: seq<byte>)

  /** The same envelope with its request id read as a Long. */
  function AsKotlin(e: Envelope): KEnvelope {
    KEnvelope(e.channel, e.kind, e.flags, Signed64(e.requestId), e.payload)
  }

  const LIMITS: map<int, int> := map[1 := 64 * 1024, 2 := 4 * 1024 * 1024, 3 := 1024 * 1024, 4 := 1024 * 1024, 5 := 256 * 1024]

  function KEncode(e: KEnvelope): Result<seq<byte>> {
    if e.channel !in LIMITS then Err("unknown channel")
    else if !(0 <= e.kind <= 0xffff) then Err("kind out of range")
    else if !(0 <= e.flags <= 0xffff) then Err("flags out of range")
    else if e.requestId == 0 then Err("zero request id")
    else if e.payload == [] || |e.payload| > LIMITS[e.channel] then Err("payload exceeds channel limit")
    else Ok(ToBytes(0x5742, 2) + [1, e.channel] + ToBytes(e.kind, 2) + ToBytes(e.flags, 2)
            + ToBytes(Unsigned64(e.requestId), 8) + ToBytes(|e.payload|, 4) + e.payload)
  }

  function KDecode(frame: seq<byte>): Result<KEnvelope> {
    if |frame| < 20 then Err("truncated header")
    else if Signed16(U16At(frame, 0)) != 0x5742 then Err("bad magic")
    else if frame[2] != 1 then Err("unsupported version")
    else if frame[3] !in LIMITS then Err("unknown channel")
    else
      var requestId := Signed64(U64At(frame, 8));
      var length := Signed32(U32At(frame, 16));
      if requestId == 0 then Err("zero request id")
      else if length <= 0 || length > LIMITS[frame[3]] then Err("invalid payload length")
      else if |frame| != 20 + length then Err("frame length mismatch")
      else Ok(KEnvelope(frame[3], U16At(frame, 4), U16At(frame, 6), requestId, frame[20..]))
  }

  /** The decoder as it runs, moving a buffer's cursor; `and 0xffff` undoes the sign of a short. */
  method DecodeWithBuffer(frame: seq<byte>) returns (r: Result<KEnvelope>)
    ensures r == KDecode(frame)
  {
    if |frame| < 20 {
      return Err("truncated header");
    }
    var buffer := new ByteBuffer(frame);
    var magic := buffer.GetShort();
    if magic != 0x5742 {
      return Err("bad magic");
    }
    var version := buffer.Get();
    if version != 1 {
      return Err("unsupported version");
    }
    var channel := buffer.Get();
    if channel !in LIMITS {
      return Err("unknown channel");
    }
    var limit := LIMITS[channel];
    var kind := buffer.GetShort();
    var flags := buffer.GetShort();
    var requestId := buffer.GetLong();
    var length := buffer.GetInt();
    if requestId == 0 {
      return Err("zero request id");
    }
    if length <= 0 || length > limit {
      return Err("invalid payload length");
    }
    if |frame| != 20 + length {
      return Err("frame length mismatch");
    }
    var payload := buffer.GetBytes(length);
    assert payload == frame[20..];
    assert kind % 0x1_0000 == U16At(frame, 4) && flags % 0x1_0000 == U16At(frame, 6);
    return Ok(KEnvelope(channel, kind % 0x1_0000, flags % 0x1_0000, requestId, payload));
  }

  lemma LimitsAgree(channel: byte)
    ensures channel in LIMITS <==> ChannelLimit(channel).Some?
    ensures channel in LIMITS ==> LIMITS[channel] == ChannelLimit(channel).value
  {
  }

  /** Both sides accept the same frames and read the same envelope out of each. */
  lemma EnvelopeDecodersAgree(frame: seq<byte>)
    ensures KDecode(frame).Ok? <==> Decode(frame).Ok?
    ensures Decode(frame).Ok? ==> KDecode(frame) == Ok(AsKotlin(Decode(frame).value))
  {
    if 20 <= |frame| {
      LimitsAgree(frame[3]);
    }
  }

  /** And both encode an envelope to the same frame, or both refuse it. */
  lemma EnvelopeEncodersAgree(e: Envelope)
    ensures KEncode(AsKotlin(e)).Ok? <==> Encode(e).Ok?
    ensures Encode(e).Ok? ==> KEncode(AsKotlin(e)) == Encode(e)
  {
    LimitsAgree(e.channel);
    UnsignedRoundTrip64(e.requestId);
    assert Frame(e) == Header(e) + e.payload;
  }

  /** What the Android encoder takes, and that its own decoder gives it back. */
  lemma KotlinDecodeInvertsEncode(e: KEnvelope)
    requires -0x8000_0000_0000_0000 <= e.requestId < 0x8000_0000_0000_0000
    ensures KEncode(e).Ok? <==>
      && 1 <= e.channel <= 5 && 0 <= e.kind <= 65535 && 0 <= e.flags <= 65535 && e.requestId != 0
      && 0 < |e.payload| <= ChannelLimit(e.channel).value
    ensures KEncode(e).Ok? ==> KDecode(KEncode(e).value) == Ok(e)
  {
    if 1 <= e.channel <= 5 && 0 <= e.kind <= 65535 && 0 <= e.flags <= 65535 {
      var native := Envelope(e.channel, e.kind, e.flags, Unsigned64(e.requestId), e.payload);
      assert AsKotlin(native) == e;
      LimitsAgree(e.channel);
      EnvelopeEncodersAgree(native);
      DecodeInvertsEncode(native);
      if Encode(native).Ok? {
        EnvelopeDecodersAgree(Frame(native));
      }
    }
  }

  datatype KNext = KWhole(envelope: KEnvelope, rest: seq<byte>) | KIncomplete | KRefused

  /** readEnvelope on the bytes of its stream: it checks channel and length only before the payload. */
  function KRead(bytes: seq<byte>): KNext {
    if |bytes| < 20 then KIncomplete
    else if bytes[3] !in LIMITS then KRefused
    else
      var length := Signed32(U32At(bytes, 16));
      if length <= 0 || length > LIMITS[bytes[3]] then KRefused
      else if |bytes| < 20 + length then KIncomplete
      else match KDecode(bytes[..20 + length])
        case Ok(e) => KWhole(e, bytes[20 + length..])
        case Err(_) => KRefused
  }

  /** The two stream readers find the same envelopes and leave the same bytes, whatever comes in. */
  lemma StreamReadersAgree(bytes: seq<byte>)
    ensures KRead(bytes).KWhole? <==> ParseNext(bytes).Whole?
    ensures ParseNext(bytes).Whole? ==> KRead(bytes) == KWhole(AsKotlin(ParseNext(bytes).envelope), ParseNext(bytes).rest)
    // The Android one waits for the header, and then for as much payload as its channel allows.
    ensures KRead(bytes).KIncomplete? <==>
      |bytes| < 20 || (ChannelLimit(bytes[3]).Some? && 0 < U32At(bytes, 16) <= ChannelLimit(bytes[3]).value && |bytes| < 20 + U32At(bytes, 16))
  {
    if 20 <= |bytes| {
      LimitsAgree(bytes[3]);
      var end := 20 + U32At(bytes, 16);
      if end <= |bytes| {
        EnvelopeDecodersAgree(bytes[..end]);
        SliceReads(bytes, end);
      }
    }
  }

  // ---- session hellos ----

  /** String(bytes, US_ASCII): what is not ASCII becomes the replacement character. */
  function AsciiText(s: seq<byte>): seq<int> {
    seq(|s|, i requires 0 <= i < |s| => AsciiChar(s[i]))
  }

  function AsciiChar(b: byte): int {
    if b < 0x80 then b else 0xFFFD
  }

  datatype KHello = KHello(role: Messages.Role, nonce: seq<byte>, deviceId: seq<int>, capabilities: seq<byte>, maxFrame: int)

  /** The constructor's requirements. */
  predicate KHelloOk(h: KHello) {
    && |h.nonce| == 32 && |h.capabilities| == 32
    && 0 < |h.deviceId| <= 64
    && (forall i | 0 <= i < |h.deviceId| :: 0x20 <= h.deviceId[i] <= 0x7e)
    && 1 <= h.maxFrame <= 4 * 1024 * 1024
  }

  function KDecodeHello(payload: seq<byte>): Result<KHello> {
    if |payload| < 70 then Err("truncated session hello")
    else if payload[0] != 1 && payload[0] != 2 then Err("invalid hello role")
    else
      var n := payload[33];
      if n == 0 || n > 64 || |payload| != 70 + n then Err("invalid hello device id length")
      else
        var h := KHello(if payload[0] == 1 then Messages.Windows else Messages.Android, payload[1..33],
                        AsciiText(payload[34..34 + n]), payload[34 + n..66 + n], Signed32(U32At(payload, 66 + n)));
        if KHelloOk(h) then Ok(h) else Err("invalid session hello")
  }

  method DecodeHelloWithBuffer(payload: seq<byte>) returns (r: Result<KHello>)
    ensures r == KDecodeHello(payload)
  {
    if |payload| < 70 {
      return Err("truncated session hello");
    }
    var buffer := new ByteBuffer(payload);
    var role := buffer.Get();
    if role != 1 && role != 2 {
      return Err("invalid hello role");
    }
    var nonce := buffer.GetBytes(32);
    var idLength := buffer.Get();
    if idLength == 0 || idLength > 64 || |payload| != 70 + idLength {
      return Err("invalid hello device id length");
    }
    var id := buffer.GetBytes(idLength);
    var capabilities := buffer.GetBytes(32);
    var maxFrame := buffer.GetInt();
    var h := KHello(if role == 1 then Messages.Windows else Messages.Android, nonce, AsciiText(id), capabilities, maxFrame);
    return if KHelloOk(h) then Ok(h) else Err("invalid session hello");
  }

  lemma HelloDecodersAgree(payload: seq<byte>)
    ensures KDecodeHello(payload).Ok? <==> Messages.DecodeSessionHello(payload).Ok?
    ensures Messages.DecodeSessionHello(payload).Ok? ==>
      var h := Messages.DecodeSessionHello(payload).value;
      KDecodeHello(payload) == Ok(KHello(h.role, h.nonce, h.deviceId, h.capabilities, h.maxFrame))
  {
    if 70 <= |payload| && 0 < payload[33] <= 64 && |payload| == 70 + payload[33] {
      var id := payload[34..34 + payload[33]];
      AsciiTextChecks(id);
    }
  }

  datatype KHelloNext = KHelloWhole(hello: KHello) | KHelloMore(missing: nat) | KHelloRefused

  /** readHello on the bytes it has taken so far: any length up to 64 KiB is read before the frame is judged. */
  function KReadHello(bytes: seq<byte>): KHelloNext {
    if |bytes| < 20 then KHelloMore(20 - |bytes|)
    else
      var length := Signed32(U32At(bytes, 16));
      if length <= 0 || length > 64 * 1024 then KHelloRefused
      else if |bytes| < 20 + length then KHelloMore(20 + length - |bytes|)
      else match KDecode(bytes[..20 + length])
        case Err(_) => KHelloRefused
        case Ok(e) =>
          if e.channel != 1 || e.kind != 1 then KHelloRefused
          else match KDecodeHello(e.payload)
            case Err(_) => KHelloRefused
            case Ok(h) => if h.role.Windows? then KHelloWhole(h) else KHelloRefused
  }

  /** It waits for a whole header, and then for any payload of 1 to 65536 bytes, whatever else the header says. */
  lemma HelloIsAwaitedIff(bytes: seq<byte>)
    ensures KReadHello(bytes).KHelloMore? <==>
      |bytes| < 20 || (1 <= U32At(bytes, 16) <= 65536 && |bytes| < 20 + U32At(bytes, 16))
    ensures KReadHello(bytes).KHelloMore? && |bytes| >= 20 ==> KReadHello(bytes).missing == 20 + U32At(bytes, 16) - |bytes|
  {
  }

  lemma AsciiTextChecks(s: seq<byte>)
    ensures Printable(s) <==> forall i | 0 <= i < |s| :: 0x20 <= AsciiText(s)[i] <= 0x7e
    ensures Printable(s) ==> AsciiText(s) == s
  {
    forall i | 0 <= i < |s| ensures 0x20 <= s[i] <= 0x7e <==> 0x20 <= AsciiText(s)[i] <= 0x7e {
    }
    if forall i | 0 <= i < |s| :: 0x20 <= AsciiText(s)[i] <= 0x7e {
      assert forall i | 0 <= i < |s| :: AsciiText(s)[i] == s[i];
    }
  }

  // ---- audio frames ----

  datatype KAudio = KAudio(codec: Audio.Codec, channels: int, sampleRate: int, sequence: int, timestampMs: int, data: seq<byte>)

  predicate KAudioOk(f: KAudio) {
    && 1 <= f.channels <= 8
    && 8_000 <= f.sampleRate <= 192_000
    && f.timestampMs > 0
    && 0 < |f.data| <= 256 * 1024
    && (f.codec.Pcm16? ==> |f.data| % (2 * f.channels) == 0)
  }

  function KDecodeAudio(payload: seq<byte>): Result<KAudio> {
    if |payload| < 26 then Err("truncated audio frame")
    else if payload[0] != 1 && payload[0] != 2 then Err("invalid audio codec")
    else
      var length := Signed32(U32At(payload, 22));
      if length <= 0 || length > 256 * 1024 || |payload| - 26 != length then Err("invalid audio payload length")
      else
        var f := KAudio(if payload[0] == 1 then Audio.Pcm16 else Audio.Opus, payload[1], Signed32(U32At(payload, 2)),
                        Signed64(U64At(payload, 6)), Signed64(U64At(payload, 14)), payload[26..26 + length]);
        if KAudioOk(f) then Ok(f) else Err("invalid audio frame")
  }

  method DecodeAudioWithBuffer(payload: seq<byte>) returns (r: Result<KAudio>)
    ensures r == KDecodeAudio(payload)
  {
    if |payload| < 26 {
      return Err("truncated audio frame");
    }
    var buffer := new ByteBuffer(payload);
    var codec := buffer.Get();
    if codec != 1 && codec != 2 {
      return Err("invalid audio codec");
    }
    var channels := buffer.Get();
    var sampleRate := buffer.GetInt();
    var sequence := buffer.GetLong();
    var timestamp := buffer.GetLong();
    var length := buffer.GetInt();
    if length <= 0 || length > 256 * 1024 || |payload| - buffer.position != length {
      return Err("invalid audio payload length");
    }
    var data := buffer.GetBytes(length);
    var f := KAudio(if codec == 1 then Audio.Pcm16 else Audio.Opus, channels, sampleRate, sequence, timestamp, data);
    return if KAudioOk(f) then Ok(f) else Err("invalid audio frame");
  }

  function KotlinFrame(f: Audio.Frame): KAudio {
    KAudio(f.codec, f.channels, f.sampleRate, Signed64(f.sequence), f.timestampMs, f.data)
  }

  /** The Android side accepts exactly the frames whose timestamp is positive as a Long. */
  lemma AudioDecodersAgree(payload: seq<byte>)
    ensures KDecodeAudio(payload).Ok? <==>
      Audio.DecodeFrame(payload).Ok? && Audio.DecodeFrame(payload).value.timestampMs < 0x8000_0000_0000_0000
    ensures KDecodeAudio(payload).Ok? ==> KDecodeAudio(payload) == Ok(KotlinFrame(Audio.DecodeFrame(payload).value))
  {
    if 26 <= |payload| {
      assert payload[26..] == payload[26..26 + (|payload| - 26)];
    }
  }

  // ---- input events ----

  datatype KInput = KInput(kind: Input.Type, flags: int, modifiers: int, x: int, y: int, wheel: int, code: int, button: int)

  predicate KInputOk(e: KInput) {
    && 0 <= e.flags <= 255 && 0 <= e.modifiers <= 65535
    && -32_767 <= e.x <= 32_767 && -32_767 <= e.y <= 32_767
    && -1_000_000 <= e.wheel <= 1_000_000
    && 0 <= e.button <= 255
    && 0 <= e.code <= 0x10FFFF
    && (e.kind.MouseButton? ==> 1 <= e.button <= 8 && (e.flags == 1 || e.flags == 2))
    && (e.kind.Key? ==> e.code > 0 && (e.flags == 1 || e.flags == 2))
    && (e.kind.MouseMove? || e.kind.MouseWheel? ==> e.flags == 0)
  }

  function KDecodeInput(payload: seq<byte>): Result<KInput> {
    if |payload| != 21 then Err("invalid input event size")
    else if payload[0] == 0 || payload[0] > 4 then Err("invalid input event type")
    else
      var t := if payload[0] == 1 then Input.MouseMove else if payload[0] == 2 then Input.MouseButton
               else if payload[0] == 3 then Input.MouseWheel else Input.Key;
      var e := KInput(t, payload[1], U16At(payload, 2), Signed32(U32At(payload, 4)), Signed32(U32At(payload, 8)),
                      Signed32(U32At(payload, 12)), U32At(payload, 16), payload[20]);
      if KInputOk(e) then Ok(e) else Err("invalid input event")
  }

  method DecodeInputWithBuffer(payload: seq<byte>) returns (r: Result<KInput>)
    ensures r == KDecodeInput(payload)
  {
    if |payload| != 21 {
      return Err("invalid input event size");
    }
    var buffer := new ByteBuffer(payload);
    var b := buffer.Get();
    var t: Input.Type;
    match b {
      case 1 => t := Input.MouseMove;
      case 2 => t := Input.MouseButton;
      case 3 => t := Input.MouseWheel;
      case 4 => t := Input.Key;
      case _ => return Err("invalid input event type");
    }
    var flags := buffer.Get();
    var modifiers := buffer.GetShort();
    var x := buffer.GetInt();
    var y := buffer.GetInt();
    var wheel := buffer.GetInt();
    var code: int := buffer.GetInt();
    var button := buffer.Get();
    assert modifiers % 0x1_0000 == U16At(payload, 2);
    assert code % 0x1_0000_0000 == U32At(payload, 16);
    var e := KInput(t, flags, modifiers % 0x1_0000, x, y, wheel, code % 0x1_0000_0000, button);
    return if KInputOk(e) then Ok(e) else Err("invalid input event");
  }

  function KotlinEvent(e: Input.Event): KInput {
    KInput(e.kind, e.flags, e.modifiers, e.x, e.y, e.wheel, e.code, e.button)
  }

  /** The Android side bounds the code of every event, the Windows side only that of keys. */
  lemma InputDecodersAgree(payload: seq<byte>)
    ensures KDecodeInput(payload).Ok? <==>
      Input.DecodeEvent(payload).Ok? && Input.DecodeEvent(payload).value.code <= Input.CODE_LIMIT
    ensures KDecodeInput(payload).Ok? ==> KDecodeInput(payload) == Ok(KotlinEvent(Input.DecodeEvent(payload).value))
  {
  }
}

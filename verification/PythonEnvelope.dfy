/** The reference envelope codec, over unbounded integers. */
module PythonEnvelope {
  import opened Bytes
  import opened Wrappers
  import opened Protocol

  datatype Message = Message(channel: int, kind: int, flags: int, requestId: int, payload: seq<byte>)

  const CHANNEL_LIMITS: map<int, int> := map[1 := 64 * 1024, 2 := 4 * 1024 * 1024, 3 := 1024 * 1024, 4 := 1024 * 1024, 5 := 256 * 1024]

  /** struct.pack("!HBBHHQI") refuses a value its field cannot hold; only the request id is left unchecked before it. */
  function EncodeMessage(m: Message): Result<seq<byte>> {
    if m.channel !in CHANNEL_LIMITS then Err("unknown channel")
    else if !(0 <= m.kind <= 0xFFFF) then Err("kind out of range")
    else if !(0 <= m.flags <= 0xFFFF) then Err("flags out of range")
    else if m.requestId == 0 then Err("request id must be non-zero")
    else if |m.payload| == 0 || |m.payload| > CHANNEL_LIMITS[m.channel] then Err("payload exceeds channel limit")
    else if !(0 <= m.requestId < 0x1_0000_0000_0000_0000) then Err("struct.error")
    else Ok(ToBytes(MAGIC, 2) + [VERSION, m.channel] + ToBytes(m.kind, 2) + ToBytes(m.flags, 2)
            + ToBytes(m.requestId, 8) + ToBytes(|m.payload|, 4) + m.payload)
  }

  function DecodeMessage(frame: seq<byte>): Result<Message> {
    if |frame| < HEADER_SIZE then Err("truncated header")
    else
      var channel, requestId, length := frame[3], U64At(frame, 8), U32At(frame, 16);
      if U16At(frame, 0) != MAGIC then Err("bad magic")
      else if frame[2] != VERSION then Err("unsupported version")
      else if channel !in CHANNEL_LIMITS then Err("unknown channel")
      else if requestId == 0 then Err("zero request id")
      else if length == 0 || length > CHANNEL_LIMITS[channel] then Err("invalid payload length")
      else if |frame| != HEADER_SIZE + length then Err("frame length mismatch")
      else Ok(Message(channel, U16At(frame, 4), U16At(frame, 6), requestId, frame[HEADER_SIZE..]))
  }

  predicate InRange(m: Message) {
    && 0 <= m.channel < 0x100 && 0 <= m.kind < 0x1_0000 && 0 <= m.flags < 0x1_0000
    && 0 <= m.requestId < 0x1_0000_0000_0000_0000
  }

  function AsEnvelope(m: Message): (e: Envelope)
    requires InRange(m)
  {
    Envelope(m.channel, m.kind, m.flags, m.requestId, m.payload)
  }

  /** The reference codec and the native one accept the same frames with the same value. */
  lemma ReferenceDecoderAgrees(frame: seq<byte>)
    ensures DecodeMessage(frame).Ok? <==> Decode(frame).Ok?
    ensures DecodeMessage(frame).Ok? ==> InRange(DecodeMessage(frame).value) && Decode(frame) == Ok(AsEnvelope(DecodeMessage(frame).value))
    ensures DecodeMessage(frame).Err? ==> DecodeMessage(frame).message == Decode(frame).message
  {
  }

  lemma ReferenceEncoderAgrees(m: Message)
    ensures EncodeMessage(m).Ok? <==> InRange(m) && Encode(AsEnvelope(m)).Ok?
    ensures EncodeMessage(m).Ok? ==> EncodeMessage(m) == Encode(AsEnvelope(m))
  {
    if EncodeMessage(m).Ok? {
      var e := AsEnvelope(m);
      assert Frame(e) == Header(e) + e.payload;
    }
  }
}

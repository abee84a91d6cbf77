/** Audio frames. */
module Audio {
  import opened Bytes
  import opened Wrappers

  const HEADER_SIZE := 26
  const MAX_DATA := 256 * 1024

  datatype Codec = Pcm16 | Opus

  datatype Frame = Frame(
    codec: Codec, channels: byte, sampleRate: u32, sequence: u64, timestampMs: u64, data: seq<byte>)

  function CodecByte(codec: Codec): byte {
    match codec
    case Pcm16 => 1
    case Opus => 2
  }

  predicate Aligned(codec: Codec, channels: byte, size: nat) {
    codec.Pcm16? && channels > 0 ==> size % (2 * channels) == 0
  }

  predicate ValidFrame(f: Frame) {
    && 1 <= f.channels <= 8
    && 8_000 <= f.sampleRate <= 192_000
    && f.timestampMs != 0
    && 0 < |f.data| <= 256 * 1024
    && Aligned(f.codec, f.channels, |f.data|)
  }

  /** The checks in the order the source makes them; None when they all pass. */
  function Complaint(f: Frame): Option<string> {
    if f.channels == 0 || f.channels > 8 then Some("invalid audio channels")
    else if f.sampleRate < 8_000 || f.sampleRate > 192_000 then Some("invalid audio sample rate")
    else if f.timestampMs == 0 then Some("invalid audio timestamp")
    else if f.data == [] || |f.data| > MAX_DATA then Some("invalid audio payload")
    else if f.codec.Pcm16? && |f.data| % (2 * f.channels) != 0 then Some("unaligned PCM16 payload")
    else None
  }

  function FrameBytes(f: Frame): (s: seq<byte>)
    ensures |s| == HEADER_SIZE + |f.data|
  {
    [CodecByte(f.codec), f.channels] + ToBytes(f.sampleRate, 4) + ToBytes(f.sequence, 8)
    + ToBytes(f.timestampMs, 8) + ToBytes(|f.data|, 4) + f.data
  }

  function EncodeFrame(f: Frame): Result<seq<byte>> {
    match Complaint(f)
    case Some(m) => Err(m)
    case None => Ok(FrameBytes(f))
  }

  function DecodeFrame(payload: seq<byte>): Result<Frame> {
    if |payload| < HEADER_SIZE then Err("truncated audio frame")
    else if payload[0] != 1 && payload[0] != 2 then Err("invalid audio codec")
    else
      var length := U32At(payload, 22);
      if length == 0 || length > MAX_DATA || |payload| != HEADER_SIZE + length then Err("invalid audio payload length")
      else
        var f := Frame(if payload[0] == 1 then Pcm16 else Opus, payload[1], U32At(payload, 2),
                       U64At(payload, 6), U64At(payload, 14), payload[HEADER_SIZE..]);
        match Complaint(f)
        case Some(m) => Err(m)
        case None => Ok(f)
  }

  lemma FrameDecodeInvertsEncode(f: Frame)
    ensures EncodeFrame(f).Ok? <==> ValidFrame(f)
    ensures ValidFrame(f) ==> DecodeFrame(FrameBytes(f)) == Ok(f)
  {
    if ValidFrame(f) {
      var s := FrameBytes(f);
      assert s[2..6] == ToBytes(f.sampleRate, 4);
      assert s[6..14] == ToBytes(f.sequence, 8);
      assert s[14..22] == ToBytes(f.timestampMs, 8);
      assert s[22..26] == ToBytes(|f.data|, 4);
      assert s[26..] == f.data;
      FieldRoundTrip(f.sampleRate, 4);
      FieldRoundTrip(f.sequence, 8);
      FieldRoundTrip(f.timestampMs, 8);
      FieldRoundTrip(|f.data|, 4);
    }
  }

  lemma FrameEncodeInvertsDecode(payload: seq<byte>)
    requires DecodeFrame(payload).Ok?
    ensures EncodeFrame(DecodeFrame(payload).value) == Ok(payload)
  {
    ToBytesOfToNat(payload[2..6]);
    ToBytesOfToNat(payload[6..14]);
    ToBytesOfToNat(payload[14..22]);
    ToBytesOfToNat(payload[22..26]);
    assert payload == payload[..2] + payload[2..6] + payload[6..14] + payload[14..22] + payload[22..26] + payload[26..];
    assert payload[..2] == [payload[0], payload[1]];
  }
}

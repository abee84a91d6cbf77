/** Display commands, used by the delivery property. */
module Display {
  import opened Bytes
  import opened Wrappers

  datatype Mode = NoDisplay | SecondDisplay | PhoneControl

  datatype Command = Command(mode: Mode, suspended: bool, sequence: u32)

  function ModeByte(m: Mode): byte {
    match m
    case NoDisplay => 0
    case SecondDisplay => 1
    case PhoneControl => 2
  }

  function Encode(c: Command): (s: seq<byte>)
    ensures |s| == 6
  {
    [ModeByte(c.mode), if c.suspended then 1 else 0] + ToBytes(c.sequence, 4)
  }

  function Decode(payload: seq<byte>): Result<Command> {
    if |payload| != 6 then Err("invalid display command length")
    else if payload[0] > 2 then Err("invalid display mode")
    else if payload[1] > 1 then Err("invalid display suspend flag")
    else if U32At(payload, 2) == 0 then Err("invalid display sequence")
    else Ok(Command(if payload[0] == 0 then NoDisplay else if payload[0] == 1 then SecondDisplay else PhoneControl,
                    payload[1] == 1, U32At(payload, 2)))
  }

  /** The encoder lets sequence 0 through; the decoder refuses exactly those commands. */
  lemma CommandSurvivesUnlessSequenceZero(c: Command)
    ensures Encode(c)[0] == (match c.mode case NoDisplay => 0 case SecondDisplay => 1 case PhoneControl => 2)
    ensures Encode(c)[1] == (if c.suspended then 1 else 0) && U32At(Encode(c), 2) == c.sequence
    ensures Decode(Encode(c)) == if c.sequence == 0 then Err("invalid display sequence") else Ok(c)
  {
    assert Encode(c)[2..6] == ToBytes(c.sequence, 4);
    FieldRoundTrip(c.sequence, 4);
  }

  /** An accepted command has one wire form only, and its sequence is not zero. */
  lemma CommandEncodeInvertsDecode(payload: seq<byte>)
    requires Decode(payload).Ok?
    ensures Encode(Decode(payload).value) == payload && Decode(payload).value.sequence != 0
  {
    ToBytesOfToNat(payload[2..6]);
    assert payload == [payload[0], payload[1]] + payload[2..6];
  }
}

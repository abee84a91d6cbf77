/** The session hello: role, nonce, device id, capability hash and frame cap. */
module Messages {
  import opened Bytes
  import opened Wrappers

  const SESSION_HELLO: u16 := 0x0001
  const HEARTBEAT: u16 := 0x0005
  const HEARTBEAT_ACK: u16 := 0x0006
  const SESSION_CLOSE: u16 := 0x0007

  const DEVICE_ID_MAX := 64
  const FRAME_CAP := 4 * 1024 * 1024
  const FIXED_SIZE := 70

  datatype Role = Windows | Android

  datatype SessionHello = SessionHello(
    role: Role, nonce: Block32, deviceId: seq<byte>, capabilities: Block32, maxFrame: u32)

  function RoleByte(role: Role): byte {
    match role
    case Windows => 1
    case Android => 2
  }

  predicate ValidHello(hello: SessionHello) {
    && 0 < |hello.deviceId| <= 64
    && Printable(hello.deviceId)
    && 0 < hello.maxFrame <= 4 * 1024 * 1024
  }

  function HelloBytes(hello: SessionHello): (s: seq<byte>)
    requires |hello.deviceId| < 256
    ensures |s| == FIXED_SIZE + |hello.deviceId|
  {
    [RoleByte(hello.role)] + hello.nonce + [|hello.deviceId|] + hello.deviceId
    + hello.capabilities + ToBytes(hello.maxFrame, 4)
  }

  function EncodeSessionHello(hello: SessionHello): Result<seq<byte>> {
    if hello.deviceId == [] || |hello.deviceId| > DEVICE_ID_MAX then Err("invalid hello device id")
    else if !Printable(hello.deviceId) then Err("invalid hello device id characters")
    else if hello.maxFrame == 0 || hello.maxFrame > FRAME_CAP then Err("invalid hello max frame")
    else Ok(HelloBytes(hello))
  }

  function DecodeSessionHello(payload: seq<byte>): Result<SessionHello> {
    if |payload| < FIXED_SIZE then Err("truncated session hello")
    else
      var n := payload[33];
      if n == 0 || n > DEVICE_ID_MAX then Err("invalid hello device id length")
      else if |payload| != FIXED_SIZE + n then Err("session hello length mismatch")
      else
        var deviceId := payload[34..34 + n];
        var maxFrame := U32At(payload, 66 + n);
        if payload[0] != 1 && payload[0] != 2 then Err("invalid hello role")
        else if !Printable(deviceId) then Err("invalid hello device id characters")
        else if maxFrame == 0 || maxFrame > FRAME_CAP then Err("invalid hello max frame")
        else Ok(SessionHello(if payload[0] == 1 then Windows else Android,
                             payload[1..33], deviceId, payload[34 + n..66 + n], maxFrame))
  }

  /** The decoder as it runs, with its moving offset. */
  method DecodeHello(payload: seq<byte>) returns (r: Result<SessionHello>)
    ensures r == DecodeSessionHello(payload)
  {
    if |payload| < FIXED_SIZE {
      return Err("truncated session hello");
    }
    var offset := 0;
    var role := payload[offset];
    offset := offset + 1;
    var nonce := payload[offset..offset + 32];
    offset := offset + 32;
    var idLength := payload[offset];
    offset := offset + 1;
    if idLength == 0 || idLength > DEVICE_ID_MAX {
      return Err("invalid hello device id length");
    }
    if |payload| != FIXED_SIZE + idLength {
      return Err("session hello length mismatch");
    }
    var deviceId := payload[offset..offset + idLength];
    offset := offset + idLength;
    var capabilities := payload[offset..offset + 32];
    offset := offset + 32;
    var maxFrame := U32At(payload, offset);
    if role != 1 && role != 2 {
      return Err("invalid hello role");
    }
    if !Printable(deviceId) {
      return Err("invalid hello device id characters");
    }
    if maxFrame == 0 || maxFrame > FRAME_CAP {
      return Err("invalid hello max frame");
    }
    return Ok(SessionHello(if role == 1 then Windows else Android, nonce, deviceId, capabilities, maxFrame));
  }

  lemma HelloDecodeInvertsEncode(hello: SessionHello)
    ensures EncodeSessionHello(hello).Ok? <==> ValidHello(hello)
    ensures ValidHello(hello) ==> DecodeSessionHello(HelloBytes(hello)) == Ok(hello)
  {
    if ValidHello(hello) {
      var s, n := HelloBytes(hello), |hello.deviceId|;
      assert s[1..33] == hello.nonce;
      assert s[34..34 + n] == hello.deviceId;
      assert s[34 + n..66 + n] == hello.capabilities;
      assert s[66 + n..70 + n] == ToBytes(hello.maxFrame, 4);
      FieldRoundTrip(hello.maxFrame, 4);
    }
  }

  /** An accepted hello has one wire form only. */
  lemma HelloEncodeInvertsDecode(payload: seq<byte>)
    requires DecodeSessionHello(payload).Ok?
    ensures EncodeSessionHello(DecodeSessionHello(payload).value) == Ok(payload)
  {
    var n := payload[33];
    ToBytesOfToNat(payload[66 + n..70 + n]);
    assert payload == payload[0..1] + payload[1..33] + payload[33..34] + payload[34..34 + n]
                      + payload[34 + n..66 + n] + payload[66 + n..70 + n];
    assert payload[0..1] == [payload[0]] && payload[33..34] == [payload[33]];
  }
}

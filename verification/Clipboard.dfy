/** Clipboard updates. */
module Clipboard {
  import opened Bytes
  import opened Wrappers

  const MAX_DEVICE_ID := 64
  const MAX_TEXT := 1024 * 1024

  datatype Update = Update(loopToken: Block16, originDeviceId: seq<byte>, timestampMs: u64, text: seq<byte>)

  predicate Ascii(s: seq<byte>, maximum: nat) {
    0 < |s| <= maximum && Printable(s)
  }

  predicate ValidUpdate(u: Update) {
    && 0 < |u.originDeviceId| <= 64 && Printable(u.originDeviceId)
    && 0 < |u.text| <= 1024 * 1024
    && u.timestampMs != 0
  }

  function UpdateBytes(u: Update): (s: seq<byte>)
    requires |u.originDeviceId| < 256
    ensures |s| == 29 + |u.originDeviceId| + |u.text|
  {
    u.loopToken + ToBytes(u.timestampMs, 8) + [|u.originDeviceId|] + u.originDeviceId + ToBytes(|u.text|, 4) + u.text
  }

  function Encode(u: Update): Result<seq<byte>> {
    if !Ascii(u.originDeviceId, MAX_DEVICE_ID) then Err("invalid origin device id")
    else if u.text == [] || |u.text| > MAX_TEXT then Err("invalid clipboard text")
    else if u.timestampMs == 0 then Err("invalid clipboard timestamp")
    else Ok(UpdateBytes(u))
  }

  function Decode(payload: seq<byte>): Result<Update> {
    if |payload| < 30 then Err("truncated clipboard update")
    else
      var n := payload[24];
      if n == 0 || n > MAX_DEVICE_ID || 25 + n + 4 > |payload| then Err("invalid clipboard device id length")
      else
        var length := U32At(payload, 25 + n);
        if length == 0 || length > MAX_TEXT || |payload| != 29 + n + length then Err("invalid clipboard text length")
        else if !Ascii(payload[25..25 + n], MAX_DEVICE_ID) then Err("invalid origin device id")
        else if U64At(payload, 16) == 0 then Err("invalid clipboard timestamp")
        else Ok(Update(payload[..16], payload[25..25 + n], U64At(payload, 16), payload[29 + n..]))
  }

  /** The decoder as it runs, with its moving offset. */
  method DecodeUpdate(payload: seq<byte>) returns (r: Result<Update>)
    ensures r == Decode(payload)
  {
    if |payload| < 30 {
      return Err("truncated clipboard update");
    }
    var offset := 0;
    var token := payload[..16];
    offset := offset + 16;
    var timestamp := GetU64(payload, offset);
    offset := offset + 8;
    var idLength := payload[offset];
    offset := offset + 1;
    if idLength == 0 || idLength > MAX_DEVICE_ID || offset + idLength + 4 > |payload| {
      return Err("invalid clipboard device id length");
    }
    var id := payload[offset..offset + idLength];
    offset := offset + idLength;
    var textLength := U32At(payload, offset);
    offset := offset + 4;
    if textLength == 0 || textLength > MAX_TEXT || |payload| != offset + textLength {
      return Err("invalid clipboard text length");
    }
    var text := payload[offset..];
    if !Ascii(id, MAX_DEVICE_ID) {
      return Err("invalid origin device id");
    }
    if timestamp == 0 {
      return Err("invalid clipboard timestamp");
    }
    return Ok(Update(token, id, timestamp, text));
  }

  /** Where each field of an update sits in its bytes. */
  lemma UpdateFields(u: Update)
    requires ValidUpdate(u)
    ensures var s, n := UpdateBytes(u), |u.originDeviceId|;
      && s[..16] == u.loopToken && U64At(s, 16) == u.timestampMs && s[24] == n && s[25..25 + n] == u.originDeviceId
      && U32At(s, 25 + n) == |u.text| && s[29 + n..] == u.text
  {
    var s, n := UpdateBytes(u), |u.originDeviceId|;
    assert s[16..24] == ToBytes(u.timestampMs, 8);
    assert s[25 + n..29 + n] == ToBytes(|u.text|, 4);
    FieldRoundTrip(u.timestampMs, 8);
    FieldRoundTrip(|u.text|, 4);
  }

  lemma UpdateDecodeInvertsEncode(u: Update)
    ensures Encode(u).Ok? <==> ValidUpdate(u)
    ensures ValidUpdate(u) ==> Decode(UpdateBytes(u)) == Ok(u)
  {
    if ValidUpdate(u) {
      UpdateFields(u);
    }
  }

  lemma UpdateEncodeInvertsDecode(payload: seq<byte>)
    requires Decode(payload).Ok?
    ensures Encode(Decode(payload).value) == Ok(payload)
  {
    var n := payload[24];
    ToBytesOfToNat(payload[16..24]);
    ToBytesOfToNat(payload[25 + n..29 + n]);
    assert payload == payload[..16] + payload[16..24] + payload[24..25] + payload[25..25 + n]
                      + payload[25 + n..29 + n] + payload[29 + n..];
    assert payload[24..25] == [n];
  }
}

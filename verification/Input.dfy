/** Pointer, wheel and key events, with signed coordinates on an unsigned wire. */
module Input {
  import opened Bytes
  import opened Wrappers

  const SIZE := 21
  const COORDINATE_LIMIT := 32_767
  const WHEEL_LIMIT := 1_000_000
  const CODE_LIMIT := 0x10FFFF

  datatype Type = MouseMove | MouseButton | MouseWheel | Key

  datatype Event = Event(
    kind: Type, flags: byte, modifiers: u16, x: i32, y: i32, wheel: i32, code: u32, button: byte)

  function TypeByte(t: Type): byte {
    match t
    case MouseMove => 1
    case MouseButton => 2
    case MouseWheel => 3
    case Key => 4
  }

  function TypeOf(b: byte): Option<Type> {
    match b
    case 1 => Some(MouseMove)
    case 2 => Some(MouseButton)
    case 3 => Some(MouseWheel)
    case 4 => Some(Key)
    case _ => None
  }

  predicate Stateful(t: Type) {
    t.MouseButton? || t.Key?
  }

  predicate ValidEvent(e: Event) {
    && -32_767 <= e.x <= 32_767
    && -32_767 <= e.y <= 32_767
    && -1_000_000 <= e.wheel <= 1_000_000
    && (e.kind.MouseButton? ==> 1 <= e.button <= 8)
    && (e.kind.Key? ==> 1 <= e.code <= 0x10FFFF)
    && (if Stateful(e.kind) then e.flags == 1 || e.flags == 2 else e.flags == 0)
  }

  /** The checks in the order the source makes them; None when they all pass. */
  function Complaint(e: Event): Option<string> {
    if e.x < -COORDINATE_LIMIT || e.x > COORDINATE_LIMIT || e.y < -COORDINATE_LIMIT || e.y > COORDINATE_LIMIT
    then Some("input coordinates out of range")
    else if e.wheel < -WHEEL_LIMIT || e.wheel > WHEEL_LIMIT then Some("input wheel delta out of range")
    else if e.kind.MouseButton? && (e.button == 0 || e.button > 8) then Some("invalid mouse button")
    else if e.kind.Key? && (e.code == 0 || e.code > CODE_LIMIT) then Some("invalid key code")
    else if (e.kind.MouseButton? || e.kind.Key?) && e.flags != 1 && e.flags != 2 then Some("invalid button/key state")
    else if (e.kind.MouseMove? || e.kind.MouseWheel?) && e.flags != 0 then Some("invalid non-stateful input flags")
    else None
  }

  function EventBytes(e: Event): (s: seq<byte>)
    ensures |s| == SIZE
  {
    [TypeByte(e.kind), e.flags] + ToBytes(e.modifiers, 2) + ToBytes(Unsigned32(e.x), 4) + ToBytes(Unsigned32(e.y), 4)
    + ToBytes(Unsigned32(e.wheel), 4) + ToBytes(e.code, 4) + [e.button]
  }

  function EncodeEvent(e: Event): Result<seq<byte>> {
    match Complaint(e)
    case Some(m) => Err(m)
    case None => Ok(EventBytes(e))
  }

  function DecodeEvent(payload: seq<byte>): Result<Event> {
    if |payload| != SIZE then Err("invalid input event size")
    else match TypeOf(payload[0])
      case None => Err("invalid input event type")
      case Some(t) =>
        var e := Event(t, payload[1], U16At(payload, 2), Signed32(U32At(payload, 4)), Signed32(U32At(payload, 8)),
                       Signed32(U32At(payload, 12)), U32At(payload, 16), payload[20]);
        match Complaint(e)
        case Some(m) => Err(m)
        case None => Ok(e)
  }

  lemma EventDecodeInvertsEncode(e: Event)
    ensures EncodeEvent(e).Ok? <==> ValidEvent(e)
    ensures ValidEvent(e) ==> DecodeEvent(EventBytes(e)) == Ok(e)
  {
    if ValidEvent(e) {
      EventFields(e);
      SignedRoundTrip(e.x);
      SignedRoundTrip(e.y);
      SignedRoundTrip(e.wheel);
    }
  }

  lemma EventFields(e: Event)
    ensures var s := EventBytes(e);
      && s[0] == TypeByte(e.kind) && s[1] == e.flags && s[20] == e.button
      && U16At(s, 2) == e.modifiers && U32At(s, 16) == e.code
      && U32At(s, 4) == Unsigned32(e.x) && U32At(s, 8) == Unsigned32(e.y) && U32At(s, 12) == Unsigned32(e.wheel)
  {
    var s := EventBytes(e);
    assert s[2..4] == ToBytes(e.modifiers, 2);
    assert s[4..8] == ToBytes(Unsigned32(e.x), 4);
    assert s[8..12] == ToBytes(Unsigned32(e.y), 4);
    assert s[12..16] == ToBytes(Unsigned32(e.wheel), 4);
    assert s[16..20] == ToBytes(e.code, 4);
    FieldRoundTrip(e.modifiers, 2);
    FieldRoundTrip(Unsigned32(e.x), 4);
    FieldRoundTrip(Unsigned32(e.y), 4);
    FieldRoundTrip(Unsigned32(e.wheel), 4);
    FieldRoundTrip(e.code, 4);
  }

  lemma EventEncodeInvertsDecode(payload: seq<byte>)
    requires DecodeEvent(payload).Ok?
    ensures EncodeEvent(DecodeEvent(payload).value) == Ok(payload)
  {
    var e := DecodeEvent(payload).value;
    ToBytesOfToNat(payload[2..4]);
    ToBytesOfToNat(payload[4..8]);
    ToBytesOfToNat(payload[8..12]);
    ToBytesOfToNat(payload[12..16]);
    ToBytesOfToNat(payload[16..20]);
    UnsignedRoundTrip(U32At(payload, 4));
    UnsignedRoundTrip(U32At(payload, 8));
    UnsignedRoundTrip(U32At(payload, 12));
    EventLayout(payload, e);
  }

  lemma EventLayout(s: seq<byte>, e: Event)
    requires |s| == SIZE && s[0] == TypeByte(e.kind) && s[1] == e.flags && s[20] == e.button
    requires s[2..4] == ToBytes(e.modifiers, 2) && s[16..20] == ToBytes(e.code, 4)
    requires s[4..8] == ToBytes(Unsigned32(e.x), 4) && s[8..12] == ToBytes(Unsigned32(e.y), 4)
    requires s[12..16] == ToBytes(Unsigned32(e.wheel), 4)
    ensures s == EventBytes(e)
  {
    assert s[..2] == [s[0], s[1]] && s[20..] == [s[20]];
    assert s[..4] == s[..2] + s[2..4];
    assert s[..8] == s[..4] + s[4..8];
    assert s[..12] == s[..8] + s[8..12];
    assert s[..16] == s[..12] + s[12..16];
    assert s[..20] == s[..16] + s[16..20];
    assert s == s[..20] + s[20..];
  }
}

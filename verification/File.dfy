/** File offers and chunks, and the display name a receiver may show. */
module File {
  import opened Bytes
  import opened Wrappers

  const MAX_NAME := 255
  const MAX_MIME := 128
  const MAX_CHUNK := 1024 * 1024

  datatype Offer = Offer(transferId: Block16, size: u64, sha256: Block32, displayName: seq<byte>, mimeType: seq<byte>)

  datatype Chunk = Chunk(transferId: Block16, offset: u64, data: seq<byte>)

  predicate Text(s: seq<byte>, maximum: nat) {
    0 < |s| <= maximum && Printable(s)
  }

  const DOT: byte := 0x2e
  const UNDERSCORE: byte := 0x5f

  /** '/', '\', ':' and NUL. */
  predicate Separator(c: byte) {
    c == 0x2f || c == 0x5c || c == 0x3a || c == 0
  }

  function Shown(c: byte): byte {
    if Separator(c) then UNDERSCORE else c
  }

  function Replaced(name: seq<byte>): seq<byte> {
    seq(|name|, i requires 0 <= i < |name| => Shown(name[i]))
  }

  function SafeName(name: seq<byte>): Result<seq<byte>> {
    if !Text(name, MAX_NAME) then Err("invalid file name")
    else
      var r := Replaced(name);
      Ok(if r == [DOT] || r == [DOT, DOT] then [UNDERSCORE] + r else r)
  }

  /** A name with nothing in it to replace: 1 to 255 printable characters, no '/', '\', ':' or NUL, not "." or "..". */
  predicate IsSafeName(name: seq<byte>) {
    0 < |name| <= 255 && Printable(name) && NoSeparators(name) && name != [0x2e] && name != [0x2e, 0x2e]
  }

  /** The sanitiser's loops. */
  method SafeDisplayName(name: seq<byte>) returns (r: Result<seq<byte>>)
    ensures r == SafeName(name)
  {
    if !Text(name, MAX_NAME) {
      return Err("invalid file name");
    }
    var result: seq<byte> := [];
    for i := 0 to |name|
      invariant result == Replaced(name[..i])
    {
      assert Replaced(name[..i + 1]) == Replaced(name[..i]) + [Shown(name[i])];
      if Separator(name[i]) {
        result := result + [UNDERSCORE];
      } else {
        result := result + [name[i]];
      }
    }
    assert name[..|name|] == name;
    while result == [DOT] || result == [DOT, DOT]
      invariant result == Replaced(name) || (Replaced(name) in {[DOT], [DOT, DOT]} && result == [UNDERSCORE] + Replaced(name))
      decreases result != [] && result[0] == DOT
    {
      result := [UNDERSCORE] + result;
    }
    return Ok(result);
  }

  predicate NoSeparators(name: seq<byte>) {
    forall i | 0 <= i < |name| :: name[i] != 0x2f && name[i] != 0x5c && name[i] != 0x3a && name[i] != 0
  }

  lemma ReplacedHasNoSeparators(name: seq<byte>)
    ensures NoSeparators(Replaced(name))
    ensures Replaced(name) == name <==> NoSeparators(name)
    ensures Printable(name) ==> Printable(Replaced(name))
  {
    var r := Replaced(name);
    if r == name {
      assert NoSeparators(r);
    }
    if NoSeparators(name) {
      assert r == name;
    }
  }

  /** The sanitised name, character by character. */
  lemma SafeNameSpelledOut(name: seq<byte>)
    ensures SafeName(name).Ok? <==> 0 < |name| <= 255 && Printable(name)
    ensures SafeName(name).Ok? && name == [0x2e] ==> SafeName(name) == Ok([0x5f, 0x2e])
    ensures SafeName(name).Ok? && name == [0x2e, 0x2e] ==> SafeName(name) == Ok([0x5f, 0x2e, 0x2e])
    ensures SafeName(name).Ok? && name != [0x2e] && name != [0x2e, 0x2e] ==>
      && |SafeName(name).value| == |name|
      && forall i | 0 <= i < |name| :: SafeName(name).value[i] == if name[i] in {0x2f, 0x5c, 0x3a, 0} then 0x5f else name[i]
  {
    var r := Replaced(name);
    if name == [0x2e] || name == [0x2e, 0x2e] || r == [0x2e] || r == [0x2e, 0x2e] {
      assert name == r;
      assert [UNDERSCORE] + r == if |r| == 1 then [0x5f, 0x2e] else [0x5f, 0x2e, 0x2e];
    }
  }

  /** Sanitising gives a safe name, changes exactly the unsafe ones, and is idempotent. */
  lemma SafeNameIsSafe(name: seq<byte>)
    requires 0 < |name| <= 255 && Printable(name)
    ensures SafeName(name).Ok? && IsSafeName(SafeName(name).value)
    ensures SafeName(name) == Ok(name) <==> IsSafeName(name)
    ensures SafeName(SafeName(name).value) == SafeName(name)
  {
    SafeNameChecks(name);
    SafeNameKept(SafeName(name).value);
    if IsSafeName(name) {
      SafeNameKept(name);
    }
  }

  lemma SafeNameChecks(name: seq<byte>)
    requires 0 < |name| <= 255 && Printable(name)
    ensures SafeName(name).Ok? && IsSafeName(SafeName(name).value)
  {
    ReplacedHasNoSeparators(name);
    if SafeName(name).value != Replaced(name) {
      assert SafeName(name).value[0] == UNDERSCORE;
    }
  }

  lemma SafeNameKept(name: seq<byte>)
    requires IsSafeName(name)
    ensures SafeName(name) == Ok(name)
  {
    ReplacedHasNoSeparators(name);
  }

  predicate ValidOffer(offer: Offer) {
    && 0 < |offer.displayName| <= 255 && Printable(offer.displayName)
    && 0 < |offer.mimeType| <= 128 && Printable(offer.mimeType)
    && offer.size != 0
  }

  function Sanitised(offer: Offer): (o: Offer)
    requires ValidOffer(offer)
    ensures ValidOffer(o) && IsSafeName(o.displayName)
  {
    SafeNameIsSafe(offer.displayName);
    offer.(displayName := SafeName(offer.displayName).value)
  }

  /** The wire form of an offer under a given name. */
  function OfferBytes(o: Offer): (s: seq<byte>)
    requires |o.displayName| < 256 && |o.mimeType| < 256
    ensures |s| == 58 + |o.displayName| + |o.mimeType|
  {
    o.transferId + ToBytes(o.size, 8) + o.sha256 + [|o.displayName|] + o.displayName + [|o.mimeType|] + o.mimeType
  }

  function EncodeOffer(offer: Offer): Result<seq<byte>> {
    match SafeName(offer.displayName)
    case Err(m) => Err(m)
    case Ok(name) =>
      if !Text(offer.mimeType, MAX_MIME) then Err("invalid mime type")
      else if offer.size == 0 then Err("empty file offer")
      else if |name| > 255 || |offer.mimeType| > 255 then Err("file metadata too long")
      else Ok(OfferBytes(offer.(displayName := name)))
  }

  function DecodeOffer(payload: seq<byte>): Result<Offer> {
    if |payload| < 58 then Err("truncated file offer")
    else
      var n := payload[56];
      if n == 0 || n > MAX_NAME || 57 + n + 1 > |payload| then Err("invalid file name length")
      else
        var m := payload[57 + n];
        if m == 0 || m > MAX_MIME || 58 + n + m != |payload| then Err("invalid mime type length")
        else if U64At(payload, 16) == 0 then Err("empty file offer")
        else match SafeName(payload[57..57 + n])
          case Err(e) => Err(e)
          case Ok(name) =>
            var mime := payload[58 + n..58 + n + m];
            if !Text(mime, MAX_MIME) then Err("invalid mime type")
            else Ok(Offer(payload[..16], U64At(payload, 16), payload[24..56], name, mime))
  }

  /** The decoder as it runs, with its moving offset. */
  method DecodeOfferAt(payload: seq<byte>) returns (r: Result<Offer>)
    ensures r == DecodeOffer(payload)
  {
    if |payload| < 58 {
      return Err("truncated file offer");
    }
    var offset := 0;
    var transferId := payload[offset..offset + 16];
    offset := offset + 16;
    var size := GetU64(payload, offset);
    offset := offset + 8;
    var sha256 := payload[offset..offset + 32];
    offset := offset + 32;
    var nameLength := payload[offset];
    offset := offset + 1;
    if nameLength == 0 || nameLength > MAX_NAME || offset + nameLength + 1 > |payload| {
      return Err("invalid file name length");
    }
    var name := payload[offset..offset + nameLength];
    offset := offset + nameLength;
    var mimeLength := payload[offset];
    offset := offset + 1;
    if mimeLength == 0 || mimeLength > MAX_MIME || offset + mimeLength != |payload| {
      return Err("invalid mime type length");
    }
    var mime := payload[offset..offset + mimeLength];
    if size == 0 {
      return Err("empty file offer");
    }
    var safe := SafeDisplayName(name);
    if safe.Err? {
      return Err(safe.message);
    }
    if !Text(mime, MAX_MIME) {
      return Err("invalid mime type");
    }
    return Ok(Offer(transferId, size, sha256, safe.value, mime));
  }

  /** What arrives is what was offered, under the sanitised name. */
  lemma OfferArrivesSanitised(offer: Offer)
    ensures EncodeOffer(offer).Ok? <==> ValidOffer(offer)
    ensures ValidOffer(offer) ==> EncodeOffer(offer) == Ok(OfferBytes(Sanitised(offer)))
    ensures ValidOffer(offer) ==> DecodeOffer(OfferBytes(Sanitised(offer))) == Ok(Sanitised(offer))
  {
    if ValidOffer(offer) {
      var o := Sanitised(offer);
      SafeNameIsSafe(offer.displayName);
      OfferReadsBack(o);
    }
  }

  lemma OfferReadsBack(o: Offer)
    requires ValidOffer(o) && IsSafeName(o.displayName)
    ensures DecodeOffer(OfferBytes(o)) == Ok(o)
  {
    SafeNameIsSafe(o.displayName);
    OfferFields(o);
  }

  /** Where each field of an offer sits in its bytes. */
  lemma OfferFields(o: Offer)
    requires |o.displayName| < 256 && |o.mimeType| < 256
    ensures var s, n, m := OfferBytes(o), |o.displayName|, |o.mimeType|;
      && |s| == 58 + n + m && s[56] == n && s[57 + n] == m
      && s[..16] == o.transferId && s[16..24] == ToBytes(o.size, 8) && U64At(s, 16) == o.size && s[24..56] == o.sha256
      && s[57..57 + n] == o.displayName && s[58 + n..58 + n + m] == o.mimeType
  {
    var s, n, m := OfferBytes(o), |o.displayName|, |o.mimeType|;
    var front := o.transferId + ToBytes(o.size, 8) + o.sha256 + [n];
    assert s[..57] == front;
    assert front[16..24] == ToBytes(o.size, 8) && front[24..56] == o.sha256;
    assert s[16..24] == front[16..24] && s[24..56] == front[24..56];
    assert s[57..57 + n] == o.displayName;
    assert s[58 + n..58 + n + m] == o.mimeType;
    FieldRoundTrip(o.size, 8);
  }

  /** An accepted offer re-encodes to itself exactly when the name on the wire was already safe. */
  lemma OfferReencodes(payload: seq<byte>)
    requires DecodeOffer(payload).Ok?
    ensures EncodeOffer(DecodeOffer(payload).value) == Ok(payload) <==> IsSafeName(payload[57..57 + payload[56]])
  {
    var n := payload[56];
    var m := payload[57 + n];
    var name := payload[57..57 + n];
    var o := DecodeOffer(payload).value;
    SafeNameIsSafe(name);
    OfferArrivesSanitised(o);
    ToBytesOfToNat(payload[16..24]);
    var raw := o.(displayName := name);
    OfferLayout(payload, raw);
    OfferNameOnWire(o);
    assert OfferBytes(Sanitised(o)) == OfferBytes(o);
  }

  lemma OfferNameOnWire(o: Offer)
    requires |o.displayName| < 256 && |o.mimeType| < 256
    ensures OfferBytes(o)[56] == |o.displayName| && OfferBytes(o)[57..57 + |o.displayName|] == o.displayName
  {
  }

  lemma OfferLayout(payload: seq<byte>, raw: Offer)
    requires |raw.displayName| < 256 && |raw.mimeType| < 256
    requires |payload| == 58 + |raw.displayName| + |raw.mimeType|
    requires payload[56] == |raw.displayName| && payload[57 + |raw.displayName|] == |raw.mimeType|
    requires payload[..16] == raw.transferId && payload[16..24] == ToBytes(raw.size, 8) && payload[24..56] == raw.sha256
    requires payload[57..57 + |raw.displayName|] == raw.displayName
    requires payload[58 + |raw.displayName|..] == raw.mimeType
    ensures payload == OfferBytes(raw)
  {
    var n := |raw.displayName|;
    assert payload == payload[..16] + payload[16..24] + payload[24..56] + payload[56..57] + payload[57..57 + n]
                      + payload[57 + n..58 + n] + payload[58 + n..];
    assert payload[56..57] == [payload[56]] && payload[57 + n..58 + n] == [payload[57 + n]];
  }

  predicate ValidChunk(chunk: Chunk) {
    0 < |chunk.data| <= 1024 * 1024
  }

  function ChunkBytes(chunk: Chunk): (s: seq<byte>)
    ensures |s| == 28 + |chunk.data|
  {
    chunk.transferId + ToBytes(chunk.offset, 8) + ToBytes(|chunk.data|, 4) + chunk.data
  }

  function EncodeChunk(chunk: Chunk): Result<seq<byte>> {
    if chunk.data == [] || |chunk.data| > MAX_CHUNK then Err("invalid file chunk size")
    else Ok(ChunkBytes(chunk))
  }

  function DecodeChunk(payload: seq<byte>): Result<Chunk> {
    if |payload| < 28 then Err("truncated file chunk")
    else
      var length := U32At(payload, 24);
      if length == 0 || length > MAX_CHUNK || |payload| != 28 + length then Err("invalid file chunk length")
      else Ok(Chunk(payload[..16], U64At(payload, 16), payload[28..]))
  }

  /** Where each field of a chunk sits in its bytes. */
  lemma ChunkFields(chunk: Chunk)
    requires ValidChunk(chunk)
    ensures var s := ChunkBytes(chunk);
      && s[..16] == chunk.transferId && U64At(s, 16) == chunk.offset && U32At(s, 24) == |chunk.data| && s[28..] == chunk.data
  {
    var s := ChunkBytes(chunk);
    assert s[16..24] == ToBytes(chunk.offset, 8);
    assert s[24..28] == ToBytes(|chunk.data|, 4);
    FieldRoundTrip(chunk.offset, 8);
    FieldRoundTrip(|chunk.data|, 4);
  }

  lemma ChunkDecodeInvertsEncode(chunk: Chunk)
    ensures EncodeChunk(chunk).Ok? <==> ValidChunk(chunk)
    ensures ValidChunk(chunk) ==> DecodeChunk(ChunkBytes(chunk)) == Ok(chunk)
  {
    if ValidChunk(chunk) {
      ChunkFields(chunk);
    }
  }

  lemma ChunkEncodeInvertsDecode(payload: seq<byte>)
    requires DecodeChunk(payload).Ok?
    ensures EncodeChunk(DecodeChunk(payload).value) == Ok(payload)
  {
    ToBytesOfToNat(payload[16..24]);
    ToBytesOfToNat(payload[24..28]);
    assert payload == payload[..16] + payload[16..24] + payload[24..28] + payload[28..];
  }
}

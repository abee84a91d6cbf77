/** Routing and dispatching, and a typed message's whole way from its codec to its callback. */
module Delivery {
  import opened Bytes
  import opened Wrappers
  import opened Protocol
  import opened Framing
  import opened TlsStream
  import File
  import Clipboard
  import Audio
  import Input
  import Display

  const FILE_OFFER: u16 := 0x0001
  const FILE_CHUNK: u16 := 0x0002
  const CLIPBOARD_UPDATE: u16 := 0x0001
  const AUDIO_FRAME: u16 := 0x0001
  const DISPLAY_COMMAND: u16 := 0x0101
  const INPUT_EVENT: u16 := 0x0102

  /** A value as its callback gets it. */
  datatype Message =
    | OfferMessage(offer: File.Offer)
    | ChunkMessage(chunk: File.Chunk)
    | ClipboardMessage(update: Clipboard.Update)
    | AudioMessage(frame: Audio.Frame)
    | InputMessage(event: Input.Event)
    | DisplayMessage(command: Display.Command)

  /** The feature dispatcher's callbacks; an absent one is an empty std::function. */
  datatype Dispatcher = Dispatcher(
    onOffer: Option<File.Offer -> bool>, onChunk: Option<File.Chunk -> bool>, onClipboard: Option<Clipboard.Update -> bool>,
    onAudio: Option<Audio.Frame -> bool>, onInput: Option<Input.Event -> bool>, onDisplay: Option<Display.Command -> bool>)

  /** The callback call an envelope leads to, if any: an exception from a decoder leads to none. */
  function CallFor(d: Dispatcher, e: Envelope): Option<Message> {
    match e.channel
    case 1 =>
      if e.kind == DISPLAY_COMMAND && d.onDisplay.Some? then
        (match Display.Decode(e.payload) case Ok(c) => Some(DisplayMessage(c)) case Err(_) => None)
      else if e.kind == INPUT_EVENT && d.onInput.Some? then
        (match Input.DecodeEvent(e.payload) case Ok(v) => Some(InputMessage(v)) case Err(_) => None)
      else None
    case 3 =>
      if e.kind == FILE_OFFER && d.onOffer.Some? then
        (match File.DecodeOffer(e.payload) case Ok(o) => Some(OfferMessage(o)) case Err(_) => None)
      else if e.kind == FILE_CHUNK && d.onChunk.Some? then
        (match File.DecodeChunk(e.payload) case Ok(c) => Some(ChunkMessage(c)) case Err(_) => None)
      else None
    case 4 =>
      if e.kind != CLIPBOARD_UPDATE || d.onClipboard.None? then None
      else (match Clipboard.Decode(e.payload) case Ok(u) => Some(ClipboardMessage(u)) case Err(_) => None)
    case 5 =>
      if e.kind != AUDIO_FRAME || d.onAudio.None? then None
      else (match Audio.DecodeFrame(e.payload) case Ok(f) => Some(AudioMessage(f)) case Err(_) => None)
    case _ => None
  }

  predicate Handles(d: Dispatcher, m: Message) {
    match m
    case OfferMessage(_) => d.onOffer.Some?
    case ChunkMessage(_) => d.onChunk.Some?
    case ClipboardMessage(_) => d.onClipboard.Some?
    case AudioMessage(_) => d.onAudio.Some?
    case InputMessage(_) => d.onInput.Some?
    case DisplayMessage(_) => d.onDisplay.Some?
  }

  /** The verdict on a message is its own callback's. */
  predicate Verdict(d: Dispatcher, m: Message, ok: bool) {
    match m
    case OfferMessage(o) => d.onOffer.Some? && ok == d.onOffer.value(o)
    case ChunkMessage(c) => d.onChunk.Some? && ok == d.onChunk.value(c)
    case ClipboardMessage(u) => d.onClipboard.Some? && ok == d.onClipboard.value(u)
    case AudioMessage(f) => d.onAudio.Some? && ok == d.onAudio.value(f)
    case InputMessage(v) => d.onInput.Some? && ok == d.onInput.value(v)
    case DisplayMessage(c) => d.onDisplay.Some? && ok == d.onDisplay.value(c)
  }

  /** The dispatcher as it runs; `calls` is every callback call it has made. */
  class FeatureDispatcher {
    const callbacks: Dispatcher
    var calls: seq<Message>

    constructor (callbacks: Dispatcher)
      ensures this.callbacks == callbacks && calls == []
    {
      this.callbacks := callbacks;
      calls := [];
    }

    /** Control channel: display commands and input events. */
    method DispatchControl(e: Envelope) returns (ok: bool)
      requires e.channel == 1
      modifies this`calls
      ensures Called(callbacks, e, old(calls), calls, ok)
    {
      if e.kind == DISPLAY_COMMAND && callbacks.onDisplay.Some? {
        match Display.Decode(e.payload) {
          case Ok(c) =>
            calls := calls + [DisplayMessage(c)];
            ok := callbacks.onDisplay.value(c);
          case Err(_) => ok := false;
        }
        return;
      }
      if e.kind == INPUT_EVENT && callbacks.onInput.Some? {
        match Input.DecodeEvent(e.payload) {
          case Ok(v) =>
            calls := calls + [InputMessage(v)];
            ok := callbacks.onInput.value(v);
          case Err(_) => ok := false;
        }
        return;
      }
      return false;
    }

    /** File channel: offers and chunks. */
    method DispatchFile(e: Envelope) returns (ok: bool)
      requires e.channel == 3
      modifies this`calls
      ensures Called(callbacks, e, old(calls), calls, ok)
    {
      if e.kind == FILE_OFFER && callbacks.onOffer.Some? {
        var decoded := File.DecodeOfferAt(e.payload);
        match decoded {
          case Ok(o) =>
            calls := calls + [OfferMessage(o)];
            ok := callbacks.onOffer.value(o);
          case Err(_) => ok := false;
        }
        return;
      }
      if e.kind == FILE_CHUNK && callbacks.onChunk.Some? {
        match File.DecodeChunk(e.payload) {
          case Ok(c) =>
            calls := calls + [ChunkMessage(c)];
            ok := callbacks.onChunk.value(c);
          case Err(_) => ok := false;
        }
        return;
      }
      return false;
    }

    /** At most one callback call, and exactly the one the envelope leads to. */
    method Dispatch(e: Envelope) returns (ok: bool)
      modifies this`calls
      ensures Called(callbacks, e, old(calls), calls, ok)
      // The call is made on what the channel's own decoder gives, and its answer is the verdict.
      ensures calls == old(calls) ==> !ok
      ensures calls != old(calls) ==> |calls| == |old(calls)| + 1 && calls[..|old(calls)|] == old(calls)
      ensures calls != old(calls) && e.channel == 3 && e.kind == 0x0001 ==>
        var o := File.DecodeOffer(e.payload);
        o.Ok? && callbacks.onOffer.Some? && calls[|old(calls)|] == OfferMessage(o.value) && ok == callbacks.onOffer.value(o.value)
      ensures calls != old(calls) && e.channel == 3 && e.kind != 0x0001 ==>
        var c := File.DecodeChunk(e.payload);
        e.kind == 0x0002 && c.Ok? && callbacks.onChunk.Some? && calls[|old(calls)|] == ChunkMessage(c.value) && ok == callbacks.onChunk.value(c.value)
      ensures calls != old(calls) && e.channel == 4 ==>
        var u := Clipboard.Decode(e.payload);
        e.kind == 0x0001 && u.Ok? && callbacks.onClipboard.Some? && calls[|old(calls)|] == ClipboardMessage(u.value) && ok == callbacks.onClipboard.value(u.value)
      ensures calls != old(calls) && e.channel == 5 ==>
        var f := Audio.DecodeFrame(e.payload);
        e.kind == 0x0001 && f.Ok? && callbacks.onAudio.Some? && calls[|old(calls)|] == AudioMessage(f.value) && ok == callbacks.onAudio.value(f.value)
      ensures calls != old(calls) && e.channel == 1 && e.kind == 0x0101 ==>
        var c := Display.Decode(e.payload);
        c.Ok? && callbacks.onDisplay.Some? && calls[|old(calls)|] == DisplayMessage(c.value) && ok == callbacks.onDisplay.value(c.value)
      ensures calls != old(calls) && e.channel == 1 && e.kind != 0x0101 ==>
        var v := Input.DecodeEvent(e.payload);
        e.kind == 0x0102 && v.Ok? && callbacks.onInput.Some? && calls[|old(calls)|] == InputMessage(v.value) && ok == callbacks.onInput.value(v.value)
      ensures calls != old(calls) ==> e.channel in {1, 3, 4, 5}
    {
      ok := false;
      match e.channel {
        case 1 =>
          ok := DispatchControl(e);
        case 3 =>
          ok := DispatchFile(e);
        case 4 =>
          if e.kind == CLIPBOARD_UPDATE && callbacks.onClipboard.Some? {
            var decoded := Clipboard.DecodeUpdate(e.payload);
            if decoded.Ok? {
              calls := calls + [ClipboardMessage(decoded.value)];
              ok := callbacks.onClipboard.value(decoded.value);
            }
          }
        case 5 =>
          if e.kind == AUDIO_FRAME && callbacks.onAudio.Some? {
            var decoded := Audio.DecodeFrame(e.payload);
            if decoded.Ok? {
              calls := calls + [AudioMessage(decoded.value)];
              ok := callbacks.onAudio.value(decoded.value);
            }
          }
        case _ =>
      }
    }
  }

  /** What dispatching e adds to the calls made, and what it returns. */
  ghost predicate Called(d: Dispatcher, e: Envelope, before: seq<Message>, after: seq<Message>, ok: bool) {
    match CallFor(d, e)
    case Some(m) => after == before + [m] && Verdict(d, m, ok)
    case None => after == before && !ok
  }

  /** A router slot: an empty std::function, some handler, or the coordinator's feature dispatcher. */
  datatype Slot = Empty | Plain(handler: Envelope -> bool) | Features(dispatcher: FeatureDispatcher)

  /** The session router: a slot for each channel, 0 unused. */
  class Router {
    const handlers: array<Slot>

    ghost predicate Valid() {
      handlers.Length == 6
    }

    constructor ()
      ensures Valid() && fresh(handlers) && forall i | 0 <= i < 6 :: handlers[i] == Empty
    {
      handlers := new Slot[6](_ => Empty);
    }

    method SetHandler(channel: byte, handler: Slot) returns (ok: bool)
      requires Valid()
      modifies handlers
      ensures ok <==> 1 <= channel <= 5 && !handler.Empty?
      ensures handlers[..] == if ok then old(handlers[..])[channel := handler] else old(handlers[..])
    {
      if channel == 0 || channel as int >= handlers.Length || handler.Empty? {
        return false;
      }
      handlers[channel] := handler;
      return true;
    }

    ghost function Reached(e: Envelope): set<object>
      requires Valid()
      reads handlers
    {
      if 1 <= e.channel <= 5 && handlers[e.channel].Features? then {handlers[e.channel].dispatcher} else {}
    }

    method Route(e: Envelope) returns (ok: bool)
      requires Valid()
      modifies Reached(e)
      ensures !(1 <= e.channel <= 5) || handlers[e.channel].Empty? ==> !ok
      ensures 1 <= e.channel <= 5 && handlers[e.channel].Plain? ==> ok == handlers[e.channel].handler(e)
      ensures 1 <= e.channel <= 5 && handlers[e.channel].Features? ==>
        var d := handlers[e.channel].dispatcher;
        Called(d.callbacks, e, old(d.calls), d.calls, ok)
    {
      if e.channel == 0 || e.channel as int >= handlers.Length {
        return false;
      }
      match handlers[e.channel] {
        case Empty =>
          return false;
        case Plain(handler) =>
          return handler(e);
        case Features(dispatcher) =>
          ok := dispatcher.Dispatch(e);
      }
    }

    /** The coordinator's wiring: every channel but media goes to the dispatcher. */
    method SetFeatureDispatcher(d: FeatureDispatcher)
      requires Valid()
      modifies handlers
      ensures forall c: byte | c in {1, 3, 4, 5} :: handlers[c] == Features(d)
      ensures handlers[0] == old(handlers[0]) && handlers[2] == old(handlers[2])
    {
      var _ := SetHandler(1, Features(d));
      var _ := SetHandler(3, Features(d));
      var _ := SetHandler(4, Features(d));
      var _ := SetHandler(5, Features(d));
    }
  }

  // ---- a message's own channel, kind and payload ----

  function ChannelOf(m: Message): byte {
    match m
    case OfferMessage(_) => 3
    case ChunkMessage(_) => 3
    case ClipboardMessage(_) => 4
    case AudioMessage(_) => 5
    case InputMessage(_) => 1
    case DisplayMessage(_) => 1
  }

  function KindOf(m: Message): u16 {
    match m
    case OfferMessage(_) => FILE_OFFER
    case ChunkMessage(_) => FILE_CHUNK
    case ClipboardMessage(_) => CLIPBOARD_UPDATE
    case AudioMessage(_) => AUDIO_FRAME
    case InputMessage(_) => INPUT_EVENT
    case DisplayMessage(_) => DISPLAY_COMMAND
  }

  function PayloadOf(m: Message): Result<seq<byte>> {
    match m
    case OfferMessage(o) => File.EncodeOffer(o)
    case ChunkMessage(c) => File.EncodeChunk(c)
    case ClipboardMessage(u) => Clipboard.Encode(u)
    case AudioMessage(f) => Audio.EncodeFrame(f)
    case InputMessage(v) => Input.EncodeEvent(v)
    case DisplayMessage(c) => Ok(Display.Encode(c))
  }

  /** The message's codec, then the envelope codec. */
  function FrameFor(m: Message, flags: u16, requestId: u64): Result<seq<byte>> {
    match PayloadOf(m)
    case Err(e) => Err(e)
    case Ok(payload) => Encode(Envelope(ChannelOf(m), KindOf(m), flags, requestId, payload))
  }

  /** What its codec accepts. */
  predicate WellFormed(m: Message) {
    match m
    case OfferMessage(o) => File.ValidOffer(o)
    case ChunkMessage(c) => File.ValidChunk(c)
    case ClipboardMessage(u) => Clipboard.ValidUpdate(u)
    case AudioMessage(f) => Audio.ValidFrame(f)
    case InputMessage(v) => Input.ValidEvent(v)
    case DisplayMessage(_) => true
  }

  /** The room the channel leaves: less than the codecs' own caps for chunks, clipboard text and audio. */
  predicate Fits(m: Message) {
    match m
    case ChunkMessage(c) => |c.data| <= 1024 * 1024 - 28
    case ClipboardMessage(u) => |u.originDeviceId| + |u.text| <= 1024 * 1024 - 29
    case AudioMessage(f) => |f.data| <= 256 * 1024 - 26
    case OfferMessage(_) => true
    case InputMessage(_) => true
    case DisplayMessage(_) => true
  }

  /** What the decoder at the other end lets through: the display codec alone is lopsided. */
  predicate Readable(m: Message) {
    m.DisplayMessage? ==> m.command.sequence != 0
  }

  /** The message as it arrives: an offer under its sanitised name, anything else unchanged. */
  function Arrives(m: Message): Message
    requires WellFormed(m)
  {
    if m.OfferMessage? then OfferMessage(File.Sanitised(m.offer)) else m
  }

  lemma OfferRoom(o: File.Offer)
    ensures File.EncodeOffer(o).Ok? <==> File.ValidOffer(o)
    ensures File.EncodeOffer(o).Ok? ==> |File.EncodeOffer(o).value| <= ChannelLimit(3).value
  {
    File.OfferArrivesSanitised(o);
  }

  lemma ChunkRoom(c: File.Chunk)
    ensures File.EncodeChunk(c).Ok? <==> File.ValidChunk(c)
    ensures File.EncodeChunk(c).Ok? ==> (|File.EncodeChunk(c).value| <= ChannelLimit(3).value <==> |c.data| <= 1024 * 1024 - 28)
  {
    File.ChunkDecodeInvertsEncode(c);
  }

  lemma ClipboardRoom(u: Clipboard.Update)
    ensures Clipboard.Encode(u).Ok? <==> Clipboard.ValidUpdate(u)
    ensures Clipboard.Encode(u).Ok? ==>
      (|Clipboard.Encode(u).value| <= ChannelLimit(4).value <==> |u.originDeviceId| + |u.text| <= 1024 * 1024 - 29)
  {
    Clipboard.UpdateDecodeInvertsEncode(u);
  }

  lemma AudioRoom(f: Audio.Frame)
    ensures Audio.EncodeFrame(f).Ok? <==> Audio.ValidFrame(f)
    ensures Audio.EncodeFrame(f).Ok? ==> (|Audio.EncodeFrame(f).value| <= ChannelLimit(5).value <==> |f.data| <= 256 * 1024 - 26)
  {
    Audio.FrameDecodeInvertsEncode(f);
  }

  lemma InputRoom(v: Input.Event)
    ensures Input.EncodeEvent(v).Ok? <==> Input.ValidEvent(v)
    ensures Input.EncodeEvent(v).Ok? ==> |Input.EncodeEvent(v).value| <= ChannelLimit(1).value
  {
    Input.EventDecodeInvertsEncode(v);
  }

  lemma PayloadIff(m: Message)
    ensures PayloadOf(m).Ok? <==> WellFormed(m)
    ensures PayloadOf(m).Ok? ==> (|PayloadOf(m).value| <= ChannelLimit(ChannelOf(m)).value <==> Fits(m))
  {
    match m
    case OfferMessage(o) => OfferRoom(o);
    case ChunkMessage(c) => ChunkRoom(c);
    case ClipboardMessage(u) => ClipboardRoom(u);
    case AudioMessage(f) => AudioRoom(f);
    case InputMessage(v) => InputRoom(v);
    case DisplayMessage(c) =>
  }

  /** A frame exists exactly for well-formed messages that fit their channel, with a request id. */
  lemma FrameExistsIff(m: Message, flags: u16, requestId: u64)
    ensures FrameFor(m, flags, requestId).Ok? <==> WellFormed(m) && Fits(m) && requestId != 0
    ensures FrameFor(m, flags, requestId).Ok? ==>
      Sendable(Envelope(ChannelOf(m), KindOf(m), flags, requestId, PayloadOf(m).value))
  {
    PayloadIff(m);
  }

  lemma PayloadReadsBack(m: Message, flags: u16, requestId: u64, d: Dispatcher)
    requires WellFormed(m)
    ensures PayloadOf(m).Ok?
    ensures CallFor(d, Envelope(ChannelOf(m), KindOf(m), flags, requestId, PayloadOf(m).value)) ==
      if Handles(d, m) && Readable(m) then Some(Arrives(m)) else None
  {
    match m
    case OfferMessage(o) => File.OfferArrivesSanitised(o);
    case ChunkMessage(c) => File.ChunkDecodeInvertsEncode(c);
    case ClipboardMessage(u) => Clipboard.UpdateDecodeInvertsEncode(u);
    case AudioMessage(f) => Audio.FrameDecodeInvertsEncode(f);
    case InputMessage(v) => Input.EventDecodeInvertsEncode(v);
    case DisplayMessage(c) => Display.CommandSurvivesUnlessSequenceZero(c);
  }

  /**
   * Any envelope, whoever made it: it leads to a call with m exactly if it is on m's channel, of m's
   * kind, carries m's payload, and m has its callback. For an offer the payload may hold any name
   * that sanitises to m's.
   */
  lemma CalledIff(d: Dispatcher, e: Envelope, m: Message)
    ensures !m.OfferMessage? ==>
      (CallFor(d, e) == Some(m) <==>
        Handles(d, m) && Readable(m) && e.channel == ChannelOf(m) && e.kind == KindOf(m) && PayloadOf(m) == Ok(e.payload))
    ensures m.OfferMessage? ==>
      (CallFor(d, e) == Some(m) <==>
        Handles(d, m) && e.channel == 3 && e.kind == 0x0001 && File.DecodeOffer(e.payload) == Ok(m.offer))
  {
    if CallFor(d, e) == Some(m) && !m.OfferMessage? {
      CalledWithPayload(d, e, m);
    }
    if !m.OfferMessage? && Handles(d, m) && Readable(m) && e.channel == ChannelOf(m) && e.kind == KindOf(m) && PayloadOf(m) == Ok(e.payload) {
      PayloadIff(m);
      PayloadReadsBack(m, e.flags, e.requestId, d);
    }
  }

  lemma CalledWithPayload(d: Dispatcher, e: Envelope, m: Message)
    requires CallFor(d, e) == Some(m) && !m.OfferMessage?
    ensures Handles(d, m) && Readable(m) && PayloadOf(m) == Ok(e.payload) && e.channel == ChannelOf(m) && e.kind == KindOf(m)
  {
    match m
    case ChunkMessage(_) => File.ChunkEncodeInvertsDecode(e.payload);
    case ClipboardMessage(_) => Clipboard.UpdateEncodeInvertsDecode(e.payload);
    case AudioMessage(_) => Audio.FrameEncodeInvertsDecode(e.payload);
    case InputMessage(_) => Input.EventEncodeInvertsDecode(e.payload);
    case DisplayMessage(_) => Display.CommandEncodeInvertsDecode(e.payload);
  }

  /** The callback call the bytes on a wire lead to, through the stream reader and the dispatcher. */
  function CallFromBytes(d: Dispatcher, bytes: seq<byte>): Option<Message> {
    match ParseNext(bytes)
    case Whole(e, _) => CallFor(d, e)
    case _ => None
  }

  /**
   * The whole way: a message gets to a callback exactly if it is well formed, fits its channel,
   * has a request id, is one its decoder lets through, and the dispatcher has its callback. It is
   * then its own callback, called once, with the value that was sent (an offer's name sanitised),
   * and the stream is left at what followed the frame.
   */
  lemma MessageReachesItsCallback(d: Dispatcher, m: Message, flags: u16, requestId: u64, later: seq<byte>)
    ensures FrameFor(m, flags, requestId).Ok? <==> WellFormed(m) && Fits(m) && requestId != 0
    ensures FrameFor(m, flags, requestId).Ok? ==>
      var bytes := FrameFor(m, flags, requestId).value + later;
      && ParseNext(bytes).Whole? && ParseNext(bytes).rest == later
      && CallFromBytes(d, bytes) == if Handles(d, m) && Readable(m) then Some(Arrives(m)) else None
  {
    FrameExistsIff(m, flags, requestId);
    if FrameFor(m, flags, requestId).Ok? {
      var e := Envelope(ChannelOf(m), KindOf(m), flags, requestId, PayloadOf(m).value);
      DecodeInvertsEncode(e);
      WholeIffFrameInFront(Frame(e) + later, e, later);
      PayloadReadsBack(m, flags, requestId, d);
    }
  }

  /** The codecs' own caps are wider than the channels: each of these well-formed messages has no frame. */
  lemma ChunkCapExceedsChannel(c: File.Chunk, requestId: u64)
    requires requestId != 0 && |c.data| == 1024 * 1024
    ensures File.EncodeChunk(c).Ok? && FrameFor(ChunkMessage(c), 0, requestId).Err?
  {
    ChunkRoom(c);
    FrameExistsIff(ChunkMessage(c), 0, requestId);
  }

  lemma AudioCapExceedsChannel(f: Audio.Frame, requestId: u64)
    requires requestId != 0 && Audio.ValidFrame(f) && |f.data| == 256 * 1024
    ensures Audio.EncodeFrame(f).Ok? && FrameFor(AudioMessage(f), 0, requestId).Err?
  {
    AudioRoom(f);
    FrameExistsIff(AudioMessage(f), 0, requestId);
  }

  lemma ClipboardCapExceedsChannel(u: Clipboard.Update, requestId: u64)
    requires requestId != 0 && Clipboard.ValidUpdate(u) && |u.text| == 1024 * 1024
    ensures Clipboard.Encode(u).Ok? && FrameFor(ClipboardMessage(u), 0, requestId).Err?
  {
    ClipboardRoom(u);
    FrameExistsIff(ClipboardMessage(u), 0, requestId);
  }

  /**
   * One envelope from one stream to another: what is written here is next to come in there, with
   * `later` after it. Exactly the envelope's bytes are taken.
   */
  method Carry(sender: Stream, receiver: Stream, e: Envelope, later: seq<byte>) returns (received: Option<Envelope>)
    requires sender.Valid() && receiver.Valid() && sender != receiver && sender.pipe != receiver.pipe
    requires !sender.closed && !receiver.closed && receiver.pipe.incoming == []
    modifies sender, sender.pipe, receiver, receiver.pipe
    ensures received.Some? ==> Sendable(e) && received.value == e && receiver.pipe.incoming == later
    ensures Sendable(e) && !sender.pipe.broken && !receiver.pipe.broken ==> received.Some?
  {
    var start := |sender.pipe.outgoing|;
    var ok := sender.Write(e);
    if !ok {
      return None;
    }
    receiver.pipe.incoming := sender.pipe.outgoing[start..] + later;
    assert receiver.pipe.incoming == Frame(e) + later;
    WholeIffFrameInFront(Frame(e) + later, e, later);
    received := receiver.Read();
  }

  /** A message's envelope at the receiving router: its own callback once, or none. */
  method RouteMessage(router: Router, d: FeatureDispatcher, m: Message, flags: u16, requestId: u64) returns (answered: bool)
    requires WellFormed(m) && PayloadOf(m).Ok?
    requires router.Valid() && forall c: byte | c in {1, 3, 4, 5} :: router.handlers[c] == Features(d)
    modifies d
    ensures Handles(d.callbacks, m) && Readable(m) ==>
      d.calls == old(d.calls) + [Arrives(m)] && Verdict(d.callbacks, Arrives(m), answered)
    ensures !(Handles(d.callbacks, m) && Readable(m)) ==> d.calls == old(d.calls) && !answered
    ensures d.calls != old(d.calls) && m.OfferMessage? ==>
      d.callbacks.onOffer.Some? && answered == d.callbacks.onOffer.value(File.Sanitised(m.offer))
    ensures d.calls != old(d.calls) && m.ChunkMessage? ==>
      d.callbacks.onChunk.Some? && answered == d.callbacks.onChunk.value(m.chunk)
    ensures d.calls != old(d.calls) && m.ClipboardMessage? ==>
      d.callbacks.onClipboard.Some? && answered == d.callbacks.onClipboard.value(m.update)
    ensures d.calls != old(d.calls) && m.AudioMessage? ==>
      d.callbacks.onAudio.Some? && answered == d.callbacks.onAudio.value(m.frame)
    ensures d.calls != old(d.calls) && m.InputMessage? ==>
      d.callbacks.onInput.Some? && answered == d.callbacks.onInput.value(m.event)
    ensures d.calls != old(d.calls) && m.DisplayMessage? ==>
      d.callbacks.onDisplay.Some? && answered == d.callbacks.onDisplay.value(m.command)
  {
    PayloadReadsBack(m, flags, requestId, d.callbacks);
    answered := router.Route(Envelope(ChannelOf(m), KindOf(m), flags, requestId, PayloadOf(m).value));
  }

  predicate Deliverable(d: Dispatcher, m: Message, requestId: u64) {
    WellFormed(m) && Fits(m) && requestId != 0 && Handles(d, m) && Readable(m)
  }

  /**
   * The same way through the running parts: the frame is written on one stream, its bytes are the
   * next to come in on the other, and what is read there goes through the router. The dispatcher's
   * record of calls grows by exactly the message's own, once, or not at all.
   */
  method SendAcross(sender: Stream, receiver: Stream, router: Router, d: FeatureDispatcher, m: Message, flags: u16, requestId: u64,
                    later: seq<byte>)
    returns (answered: bool)
    requires sender.Valid() && receiver.Valid() && sender != receiver && sender.pipe != receiver.pipe
    requires !sender.closed && !receiver.closed && receiver.pipe.incoming == []
    requires router.Valid() && forall c: byte | c in {1, 3, 4, 5} :: router.handlers[c] == Features(d)
    modifies sender, sender.pipe, receiver, receiver.pipe, d
    ensures Deliverable(d.callbacks, m, requestId) && !sender.pipe.broken && !receiver.pipe.broken ==>
      d.calls == old(d.calls) + [Arrives(m)]
    ensures d.calls == old(d.calls) ==> !answered
    ensures d.calls != old(d.calls) ==>
      && Deliverable(d.callbacks, m, requestId)
      && d.calls == old(d.calls) + [Arrives(m)] && Verdict(d.callbacks, Arrives(m), answered)
      && receiver.pipe.incoming == later
    // The verdict, callback by callback.
    ensures d.calls != old(d.calls) && m.OfferMessage? ==>
      d.callbacks.onOffer.Some? && answered == d.callbacks.onOffer.value(File.Sanitised(m.offer))
    ensures d.calls != old(d.calls) && m.ChunkMessage? ==>
      d.callbacks.onChunk.Some? && answered == d.callbacks.onChunk.value(m.chunk)
    ensures d.calls != old(d.calls) && m.ClipboardMessage? ==>
      d.callbacks.onClipboard.Some? && answered == d.callbacks.onClipboard.value(m.update)
    ensures d.calls != old(d.calls) && m.AudioMessage? ==>
      d.callbacks.onAudio.Some? && answered == d.callbacks.onAudio.value(m.frame)
    ensures d.calls != old(d.calls) && m.InputMessage? ==>
      d.callbacks.onInput.Some? && answered == d.callbacks.onInput.value(m.event)
    ensures d.calls != old(d.calls) && m.DisplayMessage? ==>
      d.callbacks.onDisplay.Some? && answered == d.callbacks.onDisplay.value(m.command)
  {
    answered := false;
    PayloadIff(m);
    FrameExistsIff(m, flags, requestId);
    var payload := PayloadOf(m);
    if payload.Err? {
      return;
    }
    var e := Envelope(ChannelOf(m), KindOf(m), flags, requestId, payload.value);
    var received := Carry(sender, receiver, e, later);
    if received.None? {
      return;
    }
    answered := RouteMessage(router, d, m, flags, requestId);
  }
}

/** The Android client's ends of its TLS stream, as mutable streams. */
module KotlinClient {
  import opened Bytes
  import opened Wrappers
  import opened Protocol
  import opened Framing
  import opened KotlinCodecs

  /**
   * What java.io gives: readFully blocks until it has all it wants, or meets the end of the stream; a
   * write and its flush send everything, or throw with some of it sent. `room` is how much the
   * transport still takes before it throws.
   */
  class DataStream {
    var incoming: seq<byte>
    var outgoing: seq<byte>
    var room: nat

    constructor (incoming: seq<byte>, room: nat)
      ensures this.incoming == incoming && outgoing == [] && this.room == room
    {
      this.incoming := incoming;
      this.room := room;
      outgoing := [];
    }

    method ReadFully(count: nat) returns (r: Option<seq<byte>>)
      modifies this`incoming
      ensures r.Some? <==> count <= |old(incoming)|
      ensures r.Some? ==> r.value == old(incoming)[..count] && incoming == old(incoming)[count..]
    {
      if |incoming| < count {
        incoming := [];
        return None;
      }
      r := Some(incoming[..count]);
      incoming := incoming[count..];
    }

    method Write(bytes: seq<byte>) returns (ok: bool)
      modifies this`outgoing, this`room
      ensures ok <==> |bytes| <= old(room)
      ensures outgoing == old(outgoing) + if ok then bytes else bytes[..old(room)]
      ensures room == if ok then old(room) - |bytes| else 0
    {
      if |bytes| > room {
        outgoing := outgoing + bytes[..room];
        room := 0;
        return false;
      }
      outgoing := outgoing + bytes;
      room := room - |bytes|;
      return true;
    }
  }

  /** A header and then a payload taken off the front are one frame taken off it. */
  lemma HeaderAndPayload(bytes: seq<byte>, length: nat)
    requires 20 + length <= |bytes|
    ensures bytes[..20] + bytes[20..][..length] == bytes[..20 + length]
    ensures bytes[20..][length..] == bytes[20 + length..]
  {
  }

  class TlsSessionClient {
    var socket: DataStream?
    var stopped: bool

    constructor (socket: DataStream)
      ensures this.socket == socket && !stopped
    {
      this.socket := socket;
      stopped := false;
    }

    /** Nothing for a refused envelope; else the whole frame, or a beginning of it when the transport throws. */
    method SendEnvelope(e: KEnvelope) returns (ok: bool)
      modifies socket
      ensures ok <==> socket != null && KEncode(e).Ok? && |KEncode(e).value| <= old(socket.room)
      ensures socket != null ==> socket.incoming == old(socket.incoming)
      ensures socket != null && KEncode(e).Err? ==> socket.outgoing == old(socket.outgoing)
      ensures socket != null && KEncode(e).Ok? ==>
        socket.outgoing == old(socket.outgoing) + if ok then KEncode(e).value else KEncode(e).value[..old(socket.room)]
    {
      if socket == null {
        return false;
      }
      var encoded := KEncode(e);
      if encoded.Err? {
        return false;
      }
      ok := socket.Write(encoded.value);
    }

    /** The envelope the incoming bytes start with, exactly when the native reader finds one there too. */
    method ReadEnvelope() returns (r: Option<KEnvelope>)
      modifies socket
      ensures socket == null ==> r.None?
      ensures socket != null ==> (r.Some? <==> ParseNext(old(socket.incoming)).Whole?)
      ensures socket != null && r.Some? ==>
        r.value == AsKotlin(ParseNext(old(socket.incoming)).envelope) && socket.incoming == ParseNext(old(socket.incoming)).rest
      // A channel or length that is refused costs the header alone.
      ensures socket != null && 20 <= |old(socket.incoming)| ==>
        var bytes := old(socket.incoming);
        var limit := ChannelLimit(bytes[3]);
        limit.None? || !(1 <= U32At(bytes, 16) <= limit.value) ==> r.None? && socket.incoming == bytes[20..]
    {
      if socket == null {
        return None;
      }
      ghost var bytes := socket.incoming;
      StreamReadersAgree(bytes);
      var header := socket.ReadFully(20);
      if header.None? {
        return None;
      }
      SliceReads(bytes, 20);
      LimitsAgree(bytes[3]);
      var channel := header.value[3];
      if channel !in LIMITS {
        return None;
      }
      var length := Signed32(U32At(header.value, 16));
      if length <= 0 || length > LIMITS[channel] {
        return None;
      }
      var payload := socket.ReadFully(length);
      if payload.None? {
        return None;
      }
      HeaderAndPayload(bytes, length);
      var decoded := DecodeWithBuffer(header.value + payload.value);
      return if decoded.Ok? then Some(decoded.value) else None;
    }

    /** Like the envelope reader, but any length up to 64 KiB is read before anything else is checked. */
    method ReadHello() returns (r: Option<KHello>)
      modifies socket
      ensures socket == null ==> r.None?
      ensures socket != null ==> (r.Some? <==> KReadHello(old(socket.incoming)).KHelloWhole?)
      ensures socket != null && r.Some? ==>
        r.value == KReadHello(old(socket.incoming)).hello
        && |old(socket.incoming)| >= 20
        && |old(socket.incoming)| >= 20 + U32At(old(socket.incoming), 16)
        && socket.incoming == old(socket.incoming)[20 + U32At(old(socket.incoming), 16)..]
      // Accepted or not, a payload of 1 to 65536 bytes is taken off the stream, and one of any other length is not.
      ensures socket != null && 20 <= |old(socket.incoming)| ==>
        var bytes, length := old(socket.incoming), U32At(old(socket.incoming), 16);
        && (!(1 <= length <= 65536) ==> r.None? && socket.incoming == bytes[20..])
        && (1 <= length <= 65536 && 20 + length <= |bytes| ==> socket.incoming == bytes[20 + length..])
    {
      if socket == null {
        return None;
      }
      ghost var bytes := socket.incoming;
      var header := socket.ReadFully(20);
      if header.None? {
        return None;
      }
      SliceReads(bytes, 20);
      var length := Signed32(U32At(header.value, 16));
      if length <= 0 || length > 64 * 1024 {
        return None;
      }
      var payload := socket.ReadFully(length);
      if payload.None? {
        return None;
      }
      HeaderAndPayload(bytes, length);
      var decoded := DecodeWithBuffer(header.value + payload.value);
      if decoded.Err? || decoded.value.channel != 1 || decoded.value.kind != 1 {
        return None;
      }
      var hello := DecodeHelloWithBuffer(decoded.value.payload);
      if hello.Err? || !hello.value.role.Windows? {
        return None;
      }
      return Some(hello.value);
    }

    method Stop()
      modifies this
      ensures stopped && (!old(stopped) ==> socket == null)
      ensures old(stopped) ==> socket == old(socket)
    {
      if stopped {
        return;
      }
      stopped := true;
      socket := null;
    }
  }
}

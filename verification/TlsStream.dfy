/** The framed TLS stream: exact reads and writes over a transport that moves bytes as it likes. */
module TlsStream {
  import opened Bytes
  import opened Wrappers
  import opened Protocol
  import opened Framing

  /** What one SSL call does: move some bytes, ask to be called again, or fail. */
  datatype Io = Moved(count: nat) | Retry | Failed

  /** What one SSL_do_handshake call does; Done says whether TLS 1.3 with a peer certificate came out. */
  datatype Handshake = Done(verified: bool) | Again | Refused

  /** The handshake calls end in success. */
  predicate Agreed(calls: seq<Handshake>) {
    calls != [] && match calls[0]
    case Done(verified) => verified
    case Again => Agreed(calls[1..])
    case Refused => false
  }

  /** Some number of calls that ask to be called again, then one that is done and verified. */
  predicate EndsVerified(calls: seq<Handshake>) {
    exists n | 0 <= n < |calls| :: calls[n] == Done(true) && forall k | 0 <= k < n :: calls[k] == Again
  }

  lemma {:induction false} AgreedIff(calls: seq<Handshake>)
    ensures Agreed(calls) <==> EndsVerified(calls)
  {
    if calls != [] && calls[0] == Again {
      AgreedIff(calls[1..]);
      if Agreed(calls) {
        var n :| 0 <= n < |calls[1..]| && calls[1..][n] == Done(true) && forall k | 0 <= k < n :: calls[1..][k] == Again;
        assert calls[n + 1] == Done(true) && forall k | 0 <= k < n + 1 :: calls[k] == if k == 0 then Again else calls[1..][k - 1];
      }
      if EndsVerified(calls) {
        var n :| 0 <= n < |calls| && calls[n] == Done(true) && forall k | 0 <= k < n :: calls[k] == Again;
        assert calls[1..][n - 1] == Done(true) && forall k | 0 <= k < n - 1 :: calls[1..][k] == calls[k + 1];
      }
    }
  }

  const MAX_CALL := 0x10_0000

  function Min(a: nat, b: nat): nat {
    if a < b then a else b
  }

  /**
   * The SSL object as a reliable FIFO byte pipe. `script` decides, call by call, how many bytes
   * move; when it runs out every call fails. `incoming` is what the peer's bytes still to be read
   * are, `outgoing` all that was written. `broken` records that some call has failed.
   */
  class Ssl {
    var incoming: seq<byte>
    var outgoing: seq<byte>
    var script: seq<Io>
    ghost var broken: bool

    constructor (incoming: seq<byte>, script: seq<Io>)
      ensures this.incoming == incoming && this.script == script
      ensures outgoing == [] && !broken
    {
      this.incoming := incoming;
      this.script := script;
      outgoing := [];
      broken := false;
    }

    method NextCall() returns (io: Io)
      modifies this`script, this`broken
      ensures io.Failed? || (|script| < |old(script)| && broken == old(broken))
      ensures io.Failed? ==> broken
    {
      if script == [] {
        io := Failed;
      } else {
        io := script[0];
        script := script[1..];
      }
      if io.Failed? {
        broken := true;
      }
    }

    /** SSL_read: at most `limit` of the bytes that are there, into the buffer from `at` on. */
    method Read(destination: array<byte>, at: nat, limit: nat) returns (io: Io)
      requires at + limit <= destination.Length
      modifies this`incoming, this`script, this`broken, destination
      ensures io.Moved? ==> 0 < io.count <= limit && io.count <= |old(incoming)|
      ensures io.Moved? ==> incoming == old(incoming)[io.count..] && destination[at..at + io.count] == old(incoming)[..io.count]
      ensures !io.Moved? ==> incoming == old(incoming)
      ensures forall i | 0 <= i < at :: destination[i] == old(destination[i])
      ensures io.Failed? || (|script| < |old(script)| && broken == old(broken))
      ensures io.Failed? ==> broken
    {
      io := NextCall();
      if io.Moved? {
        var count := Min(io.count, Min(limit, |incoming|));
        if count == 0 {
          io := Retry;
        } else {
          forall i | 0 <= i < count {
            destination[at + i] := incoming[i];
          }
          assert destination[at..at + count] == incoming[..count];
          incoming := incoming[count..];
          io := Moved(count);
        }
      }
    }

    /** SSL_write: some beginning of `source` goes out. */
    method Write(source: seq<byte>, limit: nat) returns (io: Io)
      requires limit <= |source|
      modifies this`outgoing, this`script, this`broken
      ensures io.Moved? ==> 0 < io.count <= limit && outgoing == old(outgoing) + source[..io.count]
      ensures !io.Moved? ==> outgoing == old(outgoing)
      ensures io.Failed? || (|script| < |old(script)| && broken == old(broken))
      ensures io.Failed? ==> broken
    {
      io := NextCall();
      if io.Moved? {
        var count := Min(io.count, limit);
        if count == 0 {
          io := Retry;
        } else {
          outgoing := outgoing + source[..count];
          io := Moved(count);
        }
      }
    }
  }

  /** The bytes a reader may take before it has decided about the frame in front of it. */
  function ReadBudget(bytes: seq<byte>): (n: nat)
    ensures n <= HEADER_SIZE + 4 * 1024 * 1024
  {
    if HEADER_SIZE <= |bytes| && GoodHeader(bytes) then HEADER_SIZE + U32At(bytes, 16) else HEADER_SIZE
  }

  /** `after` is what is left of `before` when at most `limit` bytes were taken off its front. */
  ghost predicate Took(before: seq<byte>, after: seq<byte>, limit: nat) {
    && |before| - limit <= |after| <= |before|
    && after == before[|before| - |after|..]
  }

  /** `after` is `before` and then some beginning of `full`. */
  ghost predicate Wrote(before: seq<byte>, after: seq<byte>, full: seq<byte>) {
    && |before| <= |after| <= |before| + |full|
    && after == before + full[..|after| - |before|]
  }

  lemma TookMore(bytes: seq<byte>, rest: seq<byte>, first: nat, limit: nat)
    requires first <= |bytes| && Took(bytes[first..], rest, limit)
    ensures Took(bytes, rest, first + limit)
  {
    assert rest == bytes[|bytes| - |rest|..];
  }

  class Stream {
    const pipe: Ssl
    var ssl: Ssl?
    var closed: bool

    ghost predicate Valid()
      reads this, pipe
    {
      && ssl == (if closed then null else pipe)
      && (pipe.broken ==> closed)
    }

    constructor (pipe: Ssl)
      requires !pipe.broken
      ensures Valid() && this.pipe == pipe && !closed
    {
      this.pipe := pipe;
      ssl := pipe;
      closed := false;
    }

    method Close()
      modifies this
      ensures closed && ssl == if old(closed) then old(ssl) else null
    {
      if closed {
        return;
      }
      closed := true;
      ssl := null;
    }

    /** Calls until the handshake is decided; running out of `calls` is a failure. */
    method DoHandshake(calls: seq<Handshake>) returns (ok: bool)
      requires Valid()
      modifies this
      ensures Valid()
      ensures ok <==> !old(closed) && Agreed(calls)
      ensures ok <==> !old(closed) && EndsVerified(calls)
      ensures ok ==> !closed
    {
      AgreedIff(calls);
      if ssl == null || closed {
        return false;
      }
      var i := 0;
      while i < |calls|
        invariant 0 <= i <= |calls| && Valid() && !closed
        invariant Agreed(calls) <==> Agreed(calls[i..])
      {
        match calls[i] {
          case Done(verified) =>
            return verified;
          case Again =>
            i := i + 1;
          case Refused =>
            Close();
            return false;
        }
      }
      Close();
      return false;
    }

    /**
     * Fills `length` bytes of the buffer from `start` on. On success exactly the next `length`
     * bytes were taken, in order; on failure the transport broke and the stream is closed.
     */
    method ReadExact(destination: array<byte>, start: nat, length: nat) returns (ok: bool)
      requires Valid() && !closed
      requires start + length <= destination.Length
      modifies this, pipe, destination
      ensures Valid() && pipe.outgoing == old(pipe.outgoing)
      ensures ok ==> !closed && !pipe.broken && |pipe.script| <= |old(pipe.script)|
      ensures ok ==> length <= |old(pipe.incoming)|
      ensures ok ==> destination[start..start + length] == old(pipe.incoming)[..length]
      ensures ok ==> pipe.incoming == old(pipe.incoming)[length..]
      ensures !ok ==> closed && pipe.broken
      ensures Took(old(pipe.incoming), pipe.incoming, length)
      ensures forall i | 0 <= i < start :: destination[i] == old(destination[i])
    {
      var offset := 0;
      while offset < length
        invariant 0 <= offset <= length && offset <= |old(pipe.incoming)|
        invariant Valid() && !closed && ssl == pipe
        invariant pipe.outgoing == old(pipe.outgoing) && |pipe.script| <= |old(pipe.script)|
        invariant pipe.incoming == old(pipe.incoming)[offset..]
        invariant destination[start..start + offset] == old(pipe.incoming)[..offset]
        invariant forall i | 0 <= i < start :: destination[i] == old(destination[i])
        decreases |pipe.script|
      {
        ghost var before := destination[start..start + offset];
        ghost var was := pipe.incoming;
        var io := ssl.Read(destination, start + offset, Min(length - offset, MAX_CALL));
        match io {
          case Moved(count) =>
            assert destination[start..start + offset] == before;
            assert destination[start..start + offset + count] == before + was[..count];
            assert old(pipe.incoming)[..offset + count] == old(pipe.incoming)[..offset] + was[..count];
            offset := offset + count;
          case Retry =>
            assert destination[start..start + offset] == before;
          case Failed =>
            Close();
            return false;
        }
      }
      return true;
    }

    /** Sends all of `source`, or closes the stream with some beginning of it sent. */
    method WriteExact(source: seq<byte>) returns (ok: bool)
      requires Valid() && !closed
      modifies this, pipe
      ensures Valid() && pipe.incoming == old(pipe.incoming)
      ensures ok ==> !closed && !pipe.broken && pipe.outgoing == old(pipe.outgoing) + source
      ensures !ok ==> closed && pipe.broken
      ensures !ok ==> |pipe.outgoing| < |old(pipe.outgoing)| + |source|
      ensures Wrote(old(pipe.outgoing), pipe.outgoing, source)
    {
      var offset := 0;
      while offset < |source|
        invariant 0 <= offset <= |source|
        invariant Valid() && !closed && ssl == pipe
        invariant pipe.incoming == old(pipe.incoming)
        invariant pipe.outgoing == old(pipe.outgoing) + source[..offset]
        decreases |pipe.script|
      {
        var io := ssl.Write(source[offset..], Min(|source| - offset, MAX_CALL));
        match io {
          case Moved(count) =>
            assert source[..offset + count] == source[..offset] + source[offset..][..count];
            offset := offset + count;
          case Retry =>
          case Failed =>
            Close();
            return false;
        }
      }
      assert source[..offset] == source;
      return true;
    }

    /**
     * One envelope, or none. The result depends on the bytes in front of the stream and not on how
     * they were cut up: it is the envelope whose frame they start with, and then exactly that
     * frame is consumed. Nothing comes back only from a closed stream, a broken transport or a
     * frame the header checks or the zero request id check refuse; each leaves the stream closed.
     */
    method Read() returns (r: Option<Envelope>)
      requires Valid()
      modifies this, pipe
      ensures Valid() && pipe.outgoing == old(pipe.outgoing)
      ensures old(closed) ==> r.None? && closed && pipe.incoming == old(pipe.incoming)
      ensures r.Some? ==> !closed && |pipe.incoming| < |old(pipe.incoming)|
      ensures r.Some? ==> ParseNext(old(pipe.incoming)) == Whole(r.value, pipe.incoming)
      ensures r.None? ==> closed && (old(closed) || pipe.broken || ParseNext(old(pipe.incoming)).Malformed?)
      ensures Took(old(pipe.incoming), pipe.incoming, ReadBudget(old(pipe.incoming)))
    {
      ghost var bytes := pipe.incoming;
      if ssl == null || closed {
        return None;
      }
      var header := new byte[HEADER_SIZE];
      var ok := ReadExact(header, 0, HEADER_SIZE);
      if !ok {
        return None;
      }
      var h := header[..];
      assert h == bytes[..HEADER_SIZE];
      SliceReads(bytes, HEADER_SIZE);
      if U16At(h, 0) != MAGIC || h[2] != VERSION {
        Close();
        return None;
      }
      var limit := ChannelLimit(h[3]);
      if limit.None? {
        Close();
        return None;
      }
      var length := U32At(h, 16);
      if length == 0 || length > limit.value {
        Close();
        return None;
      }
      var frame := new byte[HEADER_SIZE + length];
      forall i | 0 <= i < HEADER_SIZE {
        frame[i] := header[i];
      }
      assert frame[..HEADER_SIZE] == h;
      ok := ReadExact(frame, HEADER_SIZE, length);
      assert frame[..HEADER_SIZE] == h;
      if !ok {
        TookMore(bytes, pipe.incoming, HEADER_SIZE, length);
        return None;
      }
      assert frame[..] == frame[..HEADER_SIZE] + frame[HEADER_SIZE..HEADER_SIZE + length];
      assert frame[..] == bytes[..HEADER_SIZE + length];
      assert pipe.incoming == bytes[HEADER_SIZE + length..];
      var decoded := DecodeFrame(frame[..]);
      match decoded {
        case Ok(e) =>
          return Some(e);
        case Err(_) =>
          Close();
          return None;
      }
    }

    /** The whole frame goes out, or nothing for an unsendable envelope, or a cut frame and a closed stream. */
    method Write(e: Envelope) returns (ok: bool)
      requires Valid()
      modifies this, pipe
      ensures Valid() && pipe.incoming == old(pipe.incoming)
      ensures ok <==> !old(closed) && Sendable(e) && !pipe.broken
      ensures ok ==> !closed && pipe.outgoing == old(pipe.outgoing) + Frame(e)
      ensures !ok && (old(closed) || !Sendable(e)) ==> closed == old(closed) && pipe.outgoing == old(pipe.outgoing)
      ensures !ok && !old(closed) && Sendable(e) ==> closed
      ensures Wrote(old(pipe.outgoing), pipe.outgoing, Frame(e))
      ensures !ok ==> |pipe.outgoing| < |old(pipe.outgoing)| + |Frame(e)|
    {
      DecodeInvertsEncode(e);
      if ssl == null || closed {
        return false;
      }
      var encoded := EncodeFrame(e);
      match encoded {
        case Err(_) =>
          return false;
        case Ok(frame) =>
          ok := WriteExact(frame);
      }
    }
  }
}

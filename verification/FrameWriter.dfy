/**
 * The WebSocket frame writer and the write pump's batches, checked against the frame format of
 * section 5.2 of RFC 6455 (and section 5.1: frames from a server are not masked).
 */
module FrameWriter {
  import opened Options

  type Byte = b: int | 0 <= b < 256
  type Payload = seq<Byte>

  const BATCH_SIZE := 64
  const MAX_INT := 0x7fff_ffff_ffff_ffff

  // ---------------------------------------------------------------------------------------------
  // Encoding
  // ---------------------------------------------------------------------------------------------

  /** The n low bytes of a number, most significant first. */
  function BigEndian(v: nat, n: nat): (r: seq<Byte>)
    ensures |r| == n
  {
    if n == 0 then [] else BigEndian(v / 256, n - 1) + [v % 256]
  }

  function Header(length: nat): seq<Byte> {
    if length < 126 then [0x81, length]
    else if length <= 65535 then [0x81, 126] + BigEndian(length, 2)
    else [0x81, 127] + BigEndian(length, 8)
  }

  function Frame(p: Payload): seq<Byte> {
    Header(|p|) + p
  }

  function Encode(ps: seq<Payload>): seq<Byte> {
    if ps == [] then [] else Frame(ps[0]) + Encode(ps[1..])
  }

  // ---------------------------------------------------------------------------------------------
  // Section 5.2 of RFC 6455, as a client reads it
  // ---------------------------------------------------------------------------------------------

  datatype Parsed = Malformed | Parsed(final: bool, opcode: int, payload: Payload, used: nat)

  function Value(bytes: seq<Byte>): nat {
    if bytes == [] then 0 else Value(bytes[..|bytes| - 1]) * 256 + bytes[|bytes| - 1]
  }

  function Body(s: seq<Byte>, header: nat, length: nat): Parsed
    requires |s| >= 2
  {
    if header + length <= |s| then Parsed(s[0] >= 128, s[0] % 16, s[header..header + length], header + length)
        else Malformed
  }

  /**
   * One frame. Reserved bits must be zero, a server's frame must not be masked, the length must use
   * the fewest bytes, and the top bit of a 64-bit length must be zero.
   */
  function ParseFrame(s: seq<Byte>): Parsed {
    if |s| < 2 || (s[0] / 16) % 8 != 0 || s[1] >= 128 then Malformed
    else if s[1] < 126 then Body(s, 2, s[1])
    else if s[1] == 126 then
      if |s| < 4 || Value(s[2..4]) < 126 then Malformed else Body(s, 4, Value(s[2..4]))
    else
      if |s| < 10 || Value(s[2..10]) <= 65535 || Value(s[2..10]) > MAX_INT then Malformed
          else Body(s, 10, Value(s[2..10]))
  }

  datatype Message = Message(final: bool, opcode: int, payload: Payload)

  function ParseAll(s: seq<Byte>): Option<seq<Message>>
    decreases |s|
  {
    if s == [] then Some([])
    else
      var f := ParseFrame(s);
      if f.Malformed? || f.used == 0 || f.used > |s| then None
      else
        var rest := ParseAll(s[f.used..]);
        if rest.None? then None else Some([Message(f.final, f.opcode, f.payload)] + rest.value)
  }

  // ---------------------------------------------------------------------------------------------
  // Round trip
  // ---------------------------------------------------------------------------------------------

  function Pow256(n: nat): nat {
    if n == 0 then 1 else 256 * Pow256(n - 1)
  }

  lemma {:induction false} ValueOfBigEndian(v: nat, n: nat)
    requires v < Pow256(n)
    ensures Value(BigEndian(v, n)) == v
    decreases n
  {
    if n > 0 {
      ValueOfBigEndian(v / 256, n - 1);
      var r := BigEndian(v, n);
      assert r[..|r| - 1] == BigEndian(v / 256, n - 1);
    }
  }

  lemma Powers()
    ensures Pow256(2) == 65536 && Pow256(8) == 0x1_0000_0000_0000_0000
  {
  }

  lemma BodyOfFrame(header: seq<Byte>, p: Payload, rest: seq<Byte>)
    requires |header| >= 2
    ensures Body(header + p + rest, |header|, |p|) == Parsed(header[0] >= 128, header[0] % 16, p, |header| + |p|)
  {
  }

  /** A client reads the frame back, and leaves what follows. */
  lemma FrameReadsBack(p: Payload, rest: seq<Byte>)
    requires |p| <= MAX_INT
    ensures ParseFrame(Frame(p) + rest) == Parsed(true, 1, p, |Frame(p)|)
    ensures (Frame(p) + rest)[|Frame(p)|..] == rest
  {
    var header := Header(|p|);
    var s := header + p + rest;
    assert Frame(p) + rest == s;
    assert s[0] == header[0] && s[1] == header[1];
    BodyOfFrame(header, p, rest);
    if |p| >= 126 {
      Powers();
      var n := |header| - 2;
      assert s[2..2 + n] == BigEndian(|p|, n);
      ValueOfBigEndian(|p|, n);
    }
  }

  function TextFrames(ps: seq<Payload>): seq<Message> {
    if ps == [] then [] else [Message(true, 1, ps[0])] + TextFrames(ps[1..])
  }

  ghost predicate Sendable(ps: seq<Payload>) {
    forall i :: 0 <= i < |ps| ==> |ps[i]| <= MAX_INT
  }

  lemma ParseStep(p: Payload, rest: seq<Byte>)
    requires |p| <= MAX_INT && ParseAll(rest).Some?
    ensures ParseAll(Frame(p) + rest) == Some([Message(true, 1, p)] + ParseAll(rest).value)
  {
    FrameReadsBack(p, rest);
    assert Frame(p) + rest != [];
  }

  /** Whatever is written parses back to exactly the payloads, in order, as final unmasked text frames. */
  lemma {:induction false} RoundTrip(ps: seq<Payload>)
    requires Sendable(ps)
    ensures ParseAll(Encode(ps)) == Some(TextFrames(ps))
    decreases |ps|
  {
    if ps != [] {
      RoundTrip(ps[1..]);
      ParseStep(ps[0], Encode(ps[1..]));
    }
  }

  /** Unmasked text frames as in section 5.7 of RFC 6455, for a short, a 16-bit and a 64-bit length. */
  lemma Examples(p: Payload, q: Payload)
    requires |p| == 256 && |q| == 65536
    ensures Frame([0x48, 0x65, 0x6c, 0x6c, 0x6f]) == [0x81, 0x05, 0x48, 0x65, 0x6c, 0x6c, 0x6f]
    ensures Frame(p) == [0x81, 0x7E, 0x01, 0x00] + p
    ensures Frame(q) == [0x81, 0x7F, 0, 0, 0, 0, 0, 1, 0, 0] + q
  {
    assert BigEndian(256, 2) == [1, 0] by {
      assert BigEndian(1, 1) == BigEndian(0, 0) + [1];
    }
    assert BigEndian(65536, 8) == [0, 0, 0, 0, 0, 1, 0, 0] by {
      assert BigEndian(256, 7) == BigEndian(1, 6) + [0];
      ZeroPadded(1, 5);
    }
    assert [0x81, 0x7E] + [1, 0] == [0x81, 0x7E, 0x01, 0x00];
    assert [0x81, 0x7F] + [0, 0, 0, 0, 0, 1, 0, 0] == [0x81, 0x7F, 0, 0, 0, 0, 0, 1, 0, 0];
  }

  lemma {:induction false} ZeroPadded(v: Byte, n: nat)
    ensures BigEndian(v, n + 1) == seq(n, _ => 0) + [v]
  {
    assert BigEndian(v, n + 1) == BigEndian(0, n) + [v];
    Zeros(n);
  }

  lemma {:induction false} Zeros(n: nat)
    ensures BigEndian(0, n) == seq(n, _ => 0)
  {
    if n > 0 {
      Zeros(n - 1);
      assert seq<Byte>(n, _ => 0) == seq<Byte>(n - 1, _ => 0) + [0];
    }
  }

  // ---------------------------------------------------------------------------------------------
  // The code
  // ---------------------------------------------------------------------------------------------

  /** PutUint64: eight bytes, most significant first. */
  method PutUint64(v: nat) returns (ext: seq<Byte>)
    ensures ext == BigEndian(v, 8)
  {
    ext := [];
    var rest, i := v, 0;
    while i < 8
      invariant 0 <= i <= 8
      invariant BigEndian(v, 8) == BigEndian(rest, 8 - i) + ext
    {
      ext := [rest % 256] + ext;
      rest, i := rest / 256, i + 1;
    }
  }

  method AppendFrameHeader(dst: seq<Byte>, payloadLen: nat) returns (r: seq<Byte>)
    ensures r == dst + Header(payloadLen)
  {
    r := dst + [0x81];
    if payloadLen < 126 {
      r := r + [payloadLen];
    } else if payloadLen <= 65535 {
      r := r + [126, payloadLen / 256, payloadLen % 256];
      assert BigEndian(payloadLen, 2) == BigEndian(payloadLen / 256, 1) + [payloadLen % 256];
      assert BigEndian(payloadLen / 256, 1) == [payloadLen / 256];
    } else {
      r := r + [127];
      var ext := PutUint64(payloadLen);
      r := r + ext;
    }
  }

  function Concat(bufs: seq<seq<Byte>>): seq<Byte> {
    if bufs == [] then [] else bufs[0] + Concat(bufs[1..])
  }

  /** Header, payload, header, payload, ... */
  function Buffers(ps: seq<Payload>): seq<seq<Byte>> {
    if ps == [] then [] else [Header(|ps[0]|), ps[0]] + Buffers(ps[1..])
  }

  lemma {:induction false} BuffersConcat(ps: seq<Payload>)
    ensures Concat(Buffers(ps)) == Encode(ps)
    decreases |ps|
  {
    if ps != [] {
      var bufs := Buffers(ps);
      BuffersConcat(ps[1..]);
      assert bufs[1..][0] == ps[0] && bufs[1..][1..] == Buffers(ps[1..]);
      assert Concat(bufs) == Header(|ps[0]|) + (ps[0] + Concat(Buffers(ps[1..])));
    }
  }

  /** writeFramesBatch: what reaches the connection. */
  method WriteFramesBatch(msgs: seq<Payload>) returns (wire: seq<Byte>)
    ensures wire == Encode(msgs)
  {
    if |msgs| == 0 {
      return [];
    }
    var bufs: seq<seq<Byte>> := [];
    var i := 0;
    while i < |msgs|
      invariant 0 <= i <= |msgs|
      invariant bufs + Buffers(msgs[i..]) == Buffers(msgs)
    {
      var header := AppendFrameHeader([], |msgs[i]|);
      assert msgs[i..][0] == msgs[i] && msgs[i..][1..] == msgs[i + 1..];
      assert header == Header(|msgs[i]|);
      bufs := bufs + [header, msgs[i]];
      i := i + 1;
    }
    assert bufs == Buffers(msgs);
    BuffersConcat(msgs);
    wire := Concat(bufs);
  }

  // ---------------------------------------------------------------------------------------------
  // The write pump
  // ---------------------------------------------------------------------------------------------

  lemma {:induction false} EncodeAppend(ps: seq<Payload>, qs: seq<Payload>)
    ensures Encode(ps + qs) == Encode(ps) + Encode(qs)
    decreases |ps|
  {
    if ps == [] {
      assert ps + qs == qs;
    } else {
      EncodeAppend(ps[1..], qs);
      assert (ps + qs)[1..] == ps[1..] + qs;
      assert Encode(ps + qs) == Frame(ps[0]) + (Encode(ps[1..]) + Encode(qs));
    }
  }

  /** One connection's send channel and what has been written to the socket. */
  class Pump {
    var queue: seq<Payload>
    var wire: seq<Byte>
    ghost var accepted: seq<Payload>
    ghost var written: seq<Payload>

    /** First in, first out: what was accepted is what was written, then what is queued. */
    ghost predicate Valid()
      reads this
    {
      accepted == written + queue && wire == Encode(written)
    }

    constructor ()
      ensures Valid() && accepted == []
    {
      queue, wire, accepted, written := [], [], [], [];
    }

    /** A sender gets a frame into the channel. */
    method Accept(p: Payload)
      requires Valid()
      modifies this
      ensures Valid() && accepted == old(accepted) + [p] && written == old(written)
    {
      queue, accepted := queue + [p], accepted + [p];
    }

    /**
     * writeClientMessagesBatch: the first frame directly, then what the channel holds, at most a
     * batch. Senders may put frames into the channel before each receive (`arrivals`).
     */
    method WriteBatch(arrivals: seq<seq<Payload>>) returns (batch: nat)
      requires Valid() && queue != [] && |arrivals| == BATCH_SIZE
      modifies this
      ensures Valid() && old(accepted) <= accepted
      ensures 1 <= batch <= 64 && |written| == |old(written)| + batch && old(written) <= written
      ensures batch < 64 ==> queue == []
    {
      var first := queue[0];
      queue := queue[1..];
      batch := 1;
      var frames: seq<Payload> := [];
      ghost var before, wire0 := written, wire;
      assert accepted == before + [first] + frames + queue;
      var i := 1;
      var full := true;
      while i < BATCH_SIZE && full
        invariant 1 <= i <= BATCH_SIZE && batch == |frames| + 1
                  && (if full then batch == i else batch < BATCH_SIZE && queue == [])
        invariant accepted == before + [first] + frames + queue && old(accepted) <= accepted
        invariant written == before && wire == wire0
        decreases BATCH_SIZE - i, full
      {
        queue, accepted := queue + arrivals[i], accepted + arrivals[i];
        if queue == [] {
          full := false;
        } else {
          assert queue == [queue[0]] + queue[1..];
          frames := frames + [queue[0]];
          queue := queue[1..];
          batch := batch + 1;
          i := i + 1;
        }
      }
      var one := WriteFramesBatch([first]);
      var more := WriteFramesBatch(frames);
      EncodeAppend(before, [first]);
      EncodeAppend(before + [first], frames);
      wire := wire + one + more;
      written := written + [first] + frames;
    }
  }

  /** What a client reads off the wire is a prefix of what was accepted, and all of it once the queue is empty. */
  lemma PumpDelivers(pump: Pump)
    requires pump.Valid() && Sendable(pump.accepted)
    ensures ParseAll(pump.wire) == Some(TextFrames(pump.written)) && pump.written <= pump.accepted
    ensures pump.queue == [] ==> ParseAll(pump.wire) == Some(TextFrames(pump.accepted))
  {
    forall i | 0 <= i < |pump.written| ensures |pump.written[i]| <= MAX_INT {
      assert pump.written[i] == pump.accepted[i];
    }
    RoundTrip(pump.written);
    if pump.queue == [] {
      assert pump.accepted == pump.written;
    }
  }
}

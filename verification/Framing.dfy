/** Packet framing: the fixed header, and cutting a byte stream into packets. */
module Framing {
  import opened Bytes
  import opened Wire

  datatype FixedHeader = FixedHeader(kind: nat, flags: nat, remaining: nat)

  datatype Frame = Frame(kind: nat, flags: nat, body: seq<Byte>)

  predicate ValidFrame(f: Frame, limit: nat)
  {
    f.kind < 16 && f.flags < 16 && |f.body| <= limit && |f.body| <= MAX_REMAINING
  }

  function EncodeFrame(f: Frame): seq<Byte>
    requires f.kind < 16 && f.flags < 16
  {
    [(f.kind * 16 + f.flags) as Byte] + VarInt(|f.body|) + f.body
  }

  /** The end of input inside a packet is an error; before its first byte it is the end. */
  function FromVarInt(r: Result<(nat, nat)>): Result<(nat, nat)>
  {
    if r == Err(Malformed) then Err(Eof) else r
  }

  /** The fixed header at the front of the input and the number of bytes it takes. */
  function ParseFixed(b: seq<Byte>): (r: Result<(FixedHeader, nat)>)
    ensures r.Ok? ==> 2 <= r.value.1 <= 5 && r.value.1 <= |b|
    ensures r.Ok? ==> r.value.0.remaining <= MAX_REMAINING
  {
    if b == [] then Err(Eof)
    else
      Pow128Small();
      var v :- FromVarInt(ParseVarInt(b[1..], 4));
      Ok((FixedHeader(b[0] as int / 16, b[0] as int % 16, v.0), v.1 + 1))
  }

  /** The packet at the front of the input and its size. None at the end of the input, at a
      malformed header, for a packet over the size limit, or when the body is cut short. */
  function NextFrame(b: seq<Byte>, limit: nat): (r: Option<(Frame, nat)>)
    ensures r.Some? ==> 0 < r.value.1 <= |b|
  {
    var h := ParseFixed(b);
    if h.Err? || h.value.0.remaining > limit || |b| - h.value.1 < h.value.0.remaining then None
    else
      var fh, n := h.value.0, h.value.1;
      Some((Frame(fh.kind, fh.flags, b[n..n + fh.remaining]), n + fh.remaining))
  }

  /** The packets `readLoop` extracts before it stops. */
  function Frames(b: seq<Byte>, limit: nat): seq<Frame>
    decreases |b|
  {
    match NextFrame(b, limit)
    case None => []
    case Some((f, n)) => [f] + Frames(b[n..], limit)
  }

  predicate Encodable(fs: seq<Frame>)
  {
    forall i :: 0 <= i < |fs| ==> fs[i].kind < 16 && fs[i].flags < 16
  }

  function Concat(fs: seq<Frame>): seq<Byte>
    requires Encodable(fs)
  {
    if fs == [] then [] else EncodeFrame(fs[0]) + Concat(fs[1..])
  }

  lemma ParseFixedEncoded(f: Frame, rest: seq<Byte>, limit: nat)
    requires ValidFrame(f, limit)
    ensures var n := 1 + |VarInt(|f.body|)|;
            ParseFixed(EncodeFrame(f) + rest) == Ok((FixedHeader(f.kind, f.flags, |f.body|), n))
            && n + |f.body| == |EncodeFrame(f)|
            && (EncodeFrame(f) + rest)[n..n + |f.body|] == f.body
            && (EncodeFrame(f) + rest)[n + |f.body|..] == rest
  {
    var b, v := EncodeFrame(f) + rest, VarInt(|f.body|);
    Pow128Small();
    VarIntRoundTrip(|f.body|, f.body + rest, 4);
    assert b[1..] == v + (f.body + rest);
    assert b == [b[0]] + v + f.body + rest;
  }

  /** A packet at the front of the input is taken if it is within the limit, and ends the reading
      if it is not. */
  lemma TakenIffWithinLimit(f: Frame, rest: seq<Byte>, limit: nat)
    requires ValidFrame(f, MAX_REMAINING)
    ensures NextFrame(EncodeFrame(f) + rest, limit) == if |f.body| <= limit then Some((f, |EncodeFrame(f)|)) else None
    ensures |f.body| > limit ==> Frames(EncodeFrame(f) + rest, limit) == []
  {
    ParseFixedEncoded(f, rest, MAX_REMAINING);
  }

  /** Any concatenation of packets within the limit is cut into exactly those packets. */
  lemma {:induction false} FramesOfConcat(fs: seq<Frame>, limit: nat)
    requires Encodable(fs) && forall i :: 0 <= i < |fs| ==> ValidFrame(fs[i], limit)
    ensures Frames(Concat(fs), limit) == fs
  {
    if fs != [] {
      ParseFixedEncoded(fs[0], Concat(fs[1..]), limit);
      FramesOfConcat(fs[1..], limit);
      assert fs == [fs[0]] + fs[1..];
    }
  }

  // ----- reading from a connection ----------------------------------------------

  function Flatten(ms: seq<seq<Byte>>): seq<Byte>
  {
    if ms == [] then [] else ms[0] + Flatten(ms[1..])
  }

  function Min(a: nat, b: nat): nat
  {
    if a < b then a else b
  }

  /** A WebSocket connection read as a byte stream. `pending` are the messages the peer has
      sent and that have not been taken yet. */
  class WsConn {
    var pending: seq<seq<Byte>>
    var readBuf: seq<Byte>
    var readCursor: nat

    constructor (messages: seq<seq<Byte>>)
      ensures Valid() && Stream() == Flatten(messages)
    {
      pending, readBuf, readCursor := messages, [], 0;
    }

    ghost predicate Valid()
      reads this
    {
      readCursor <= |readBuf|
    }

    /** The bytes still to be read. */
    ghost function Stream(): seq<Byte>
      requires Valid()
      reads this
    {
      readBuf[readCursor..] + Flatten(pending)
    }

    /** At most `n` bytes, from one message. May return none if a message is empty. */
    method Read(n: nat) returns (r: Result<seq<Byte>>)
      requires Valid()
      modifies this
      ensures Valid()
      ensures r.Ok? ==> |r.value| <= n && old(Stream()) == r.value + Stream()
      ensures r.Ok? && n > 0 && r.value == [] ==> |pending| < |old(pending)|
      ensures r.Ok? ==> |pending| <= |old(pending)|
      ensures r.Err? ==> r == Err(Eof) && old(Stream()) == [] && Stream() == []
    {
      if readCursor >= |readBuf| {
        if pending == [] { return Err(Eof); }
        readBuf, pending, readCursor := pending[0], pending[1..], 0;
      }
      var k := Min(n, |readBuf| - readCursor);
      var data := readBuf[readCursor..readCursor + k];
      readCursor := readCursor + k;
      r := Ok(data);
    }
  }

  /** `bufio.Reader` over the connection. */
  class BufReader {
    const conn: WsConn
    const size: nat
    var buf: seq<Byte>

    constructor (conn: WsConn, size: nat)
      requires conn.Valid() && size > 0
      ensures this.conn == conn && Valid() && Stream() == conn.Stream()
    {
      this.conn, this.size, buf := conn, size, [];
    }

    ghost predicate Valid()
      reads this, conn
    {
      conn.Valid() && size > 0
    }

    ghost function Stream(): seq<Byte>
      requires Valid()
      reads this, conn
    {
      buf + conn.Stream()
    }

    /** Serves from the buffer; an empty buffer is filled by one read, or bypassed when the
        request is at least as large. */
    method Read(n: nat) returns (r: Result<seq<Byte>>)
      requires Valid() && n > 0
      modifies this, conn
      ensures Valid()
      ensures r.Ok? ==> |r.value| <= n && old(Stream()) == r.value + Stream()
      ensures r.Ok? && r.value == [] ==> |conn.pending| < |old(conn.pending)|
      ensures r.Ok? ==> |conn.pending| <= |old(conn.pending)|
      ensures r.Err? ==> r == Err(Eof) && old(Stream()) == [] && Stream() == []
    {
      if buf == [] {
        if n >= size {
          r := conn.Read(n);
          return;
        }
        r := conn.Read(size);
        if r.Err? { return; }
        buf := r.value;
      }
      var k := Min(n, |buf|);
      var data := buf[..k];
      assert buf == data + buf[k..];
      buf := buf[k..];
      r := Ok(data);
    }

    /** `io.ReadFull`: exactly `n` bytes or an error. */
    method ReadFull(n: nat) returns (r: Result<seq<Byte>>)
      requires Valid()
      modifies this, conn
      ensures Valid()
      ensures |old(Stream())| >= n ==> r == Ok(old(Stream())[..n]) && Stream() == old(Stream())[n..]
      ensures |old(Stream())| < n ==> r == Err(if old(Stream()) == [] then Eof else UnexpectedEof)
    {
      hide Stream, Valid;
      ghost var whole := Stream();
      var got: seq<Byte> := [];
      while |got| < n
        invariant Valid() && |got| <= n && whole == got + Stream()
        decreases n - |got|, |conn.pending|
      {
        ghost var before := Stream();
        var more := Read(n - |got|);
        if more.Err? {
          assert whole == got;
          return Err(if got == [] then Eof else UnexpectedEof);
        }
        assert got + before == got + more.value + Stream();
        got := got + more.value;
      }
      r := Ok(got);
    }

    /** The fixed header, byte by byte. */
    method ReadFixed() returns (r: Result<FixedHeader>)
      requires Valid()
      modifies this, conn
      ensures Valid()
      ensures match ParseFixed(old(Stream()))
              case Ok((fh, k)) => r == Ok(fh) && Stream() == old(Stream())[k..]
              case Err(e) => r == Err(e)
    {
      ghost var whole := Stream();
      var first := ReadFull(1);
      if first.Err? { return Err(first.error); }
      var b0 := first.value[0] as int;
      assert Stream() == whole[1..];
      var n := ReadRemaining();
      if n.Err? { return Err(n.error); }
      r := Ok(FixedHeader(b0 / 16, b0 % 16, n.value));
    }

    /** The remaining length: up to four digits, low first. */
    method ReadRemaining() returns (r: Result<nat>)
      requires Valid()
      modifies this, conn
      ensures Valid()
      ensures match FromVarInt(ParseVarInt(old(Stream()), 4))
              case Ok((v, k)) => r == Ok(v) && Stream() == old(Stream())[k..]
              case Err(e) => r == Err(e)
    {
      hide Stream, Valid;
      ghost var s := Stream();
      ScanIsParse(s, 4, 0, 1);
      var mult: nat, val: nat, i: nat := 1, 0, 0;
      while true
        invariant Valid() && i < 4 && i <= |s| && Stream() == s[i..]
        invariant ScanVarInt(s, 4, 0, 1) == Used(i, ScanVarInt(s[i..], 4 - i, val, mult))
        decreases 4 - i
      {
        var next := ReadFull(1);
        if next.Err? { return Err(Eof); }
        var digit: nat := next.value[0] as int;
        assert s[i..][1..] == s[i + 1..];
        val, mult := AddDigit(val, digit, mult), mult * 128;
        i := i + 1;
        if digit < 128 { return Ok(val); }
        if i == 4 { return Err(InvalidVarInt); }
      }
    }

    /** One turn of `readLoop`: a header and its body. */
    method ReadPacket(limit: nat) returns (r: Option<Frame>)
      requires Valid()
      modifies this, conn
      ensures Valid()
      ensures match NextFrame(old(Stream()), limit)
              case Some((f, k)) => r == Some(f) && Stream() == old(Stream())[k..]
              case None => r == None
    {
      hide Stream, Valid;
      ghost var s := Stream();
      var h := ReadFixed();
      if h.Err? { return None; }
      var fh := h.value;
      ghost var n := ParseFixed(s).value.1;
      var body: seq<Byte> := [];
      if fh.remaining > 0 {
        if fh.remaining > limit { return None; }
        var b := ReadFull(fh.remaining);
        if b.Err? { return None; }
        body := b.value;
      }
      assert s[n..][..fh.remaining] == s[n..n + fh.remaining];
      assert s[n..][fh.remaining..] == s[n + fh.remaining..];
      r := Some(Frame(fh.kind, fh.flags, body));
    }
  }

  /** The framing part of `readLoop`: reads packets until reading fails or a packet exceeds
      the limit. */
  method ReadLoop(br: BufReader, limit: nat) returns (frames: seq<Frame>)
    requires br.Valid()
    modifies br, br.conn
    ensures frames == Frames(old(br.Stream()), limit)
  {
    hide BufReader.Stream, BufReader.Valid, NextFrame;
    frames := [];
    while true
      invariant br.Valid()
      invariant frames + Frames(br.Stream(), limit) == Frames(old(br.Stream()), limit)
      decreases |br.Stream()|
    {
      var f := br.ReadPacket(limit);
      if f.None? { return; }
      frames := frames + [f.value];
    }
  }

  /** However a stream of packets is cut into WebSocket messages and whatever the buffer
      size, reading it back gives the packets. */
  method ReadBack(messages: seq<seq<Byte>>, size: nat, limit: nat, ghost fs: seq<Frame>) returns (frames: seq<Frame>)
    requires size > 0
    requires Encodable(fs) && forall i :: 0 <= i < |fs| ==> ValidFrame(fs[i], limit)
    requires Flatten(messages) == Concat(fs)
    ensures frames == fs
  {
    var conn := new WsConn(messages);
    var br := new BufReader(conn, size);
    frames := ReadLoop(br, limit);
    FramesOfConcat(fs, limit);
  }
}

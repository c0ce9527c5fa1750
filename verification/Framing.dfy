/** XOT framing (RFC 1613, section 4.1): a zero version, a big-endian length, the packet. */
module Framing {
  import opened Wire

  const MAX_XOT_PACKET_SIZE := MAX_X25_PACKET_SIZE + 4
  // Shorter packets go out in one write even on a stream.
  const SINGLE_WRITE_LIMIT := 4096

  // The length is a uint16: longer packets wrap it.
  function Header(n: nat): seq<byte> {
    var m := n % 0x1_0000;
    [0, 0, m / 256, m % 256]
  }

  function Framed(p: seq<byte>): seq<byte> {
    Header(|p|) + p
  }

  /** What a send puts on the connection. Where the length has wrapped, a single write stops
      after the wrapped length, and two writes send the whole packet behind a wrong header. */
  function Sent(p: seq<byte>, isPacket: bool): seq<byte> {
    var m := |p| % 0x1_0000;
    if isPacket || m < SINGLE_WRITE_LIMIT then Framed(p[..m]) else Framed(p)
  }

  lemma SentWhole(p: seq<byte>, isPacket: bool)
    requires |p| < 0x1_0000
    ensures Sent(p, isPacket) == Framed(p)
  {
    assert p[..|p|] == p;
  }

  function Word(bs: seq<byte>, at: nat): nat
    requires at + 2 <= |bs|
  {
    var high: int := bs[at];
    high * 256 + bs[at + 1]
  }

  lemma HeaderLength(n: nat, rest: seq<byte>)
    ensures var bs := Header(n) + rest;
            Word(bs, 0) == 0 && Word(bs, 2) == n % 0x1_0000 && bs[4..] == rest
  {
    var bs := Header(n) + rest;
    assert bs[0] == 0 && bs[1] == 0;
    assert bs[2] == n % 0x1_0000 / 256 && bs[3] == n % 0x1_0000 % 256;
  }

  datatype ReadError =
    | Eof
    | BadVersion
    | TooLong(first: seq<byte>)
    | BufferTooSmall
    | LengthMismatch

  datatype ReadResult = Ok(data: seq<byte>) | Err(error: ReadError)

  /** Reading one packet off a byte stream into a buffer with the given contents: the outcome,
      and the bytes left. An oversized packet costs its header and its first three bytes; if
      the stream ends within them, the rest is what the buffer held before. */
  function ReadStream(bs: seq<byte>, buf: seq<byte>): (ReadResult, seq<byte>)
    requires |buf| >= 3
  {
    if |bs| < 4 then (Err(Eof), [])
    else if Word(bs, 0) != 0 then (Err(BadVersion), bs[4..])
    else
      var n, rest := Word(bs, 2), bs[4..];
      if n > MAX_X25_PACKET_SIZE then
        if |rest| < 3 then (Err(TooLong(rest + buf[|rest|..3])), []) else (Err(TooLong(rest[..3])), rest[3..])
      else if n > |buf| then (Err(BufferTooSmall), rest)
      else if |rest| < n then (Err(Eof), [])
      else (Ok(rest[..n]), rest[n..])
  }

  /** Reading one message of a packet-oriented connection. */
  function ReadMessage(msg: seq<byte>, bufLen: nat): ReadResult {
    var got := if |msg| <= bufLen then msg else msg[..bufLen];
    if |got| < 4 then Err(Eof)
    else if Word(got, 0) != 0 then Err(BadVersion)
    else if Word(got, 2) > MAX_X25_PACKET_SIZE then Err(TooLong(got[4..]))
    else if Word(got, 2) != |got| - 4 then Err(LengthMismatch)
    else Ok(got[4..])
  }

  // ---- round trips ----

  function Wired(ps: seq<seq<byte>>): seq<byte> {
    if ps == [] then [] else Sent(ps[0], false) + Wired(ps[1..])
  }

  // n successful reads in a row, or nothing if one of them fails.
  function ReadMany(bs: seq<byte>, buf: seq<byte>, n: nat): Option<(seq<seq<byte>>, seq<byte>)>
    requires |buf| >= 3
  {
    if n == 0 then Some(([], bs))
    else
      var (r, rest) := ReadStream(bs, buf);
      if r.Err? then None
      else match ReadMany(rest, buf, n - 1)
        case None => None
        case Some((ps, left)) => Some(([r.data] + ps, left))
  }

  // A packet that a read into buf accepts.
  predicate Fits(p: seq<byte>, buf: seq<byte>) {
    |p| <= MAX_X25_PACKET_SIZE && |p| <= |buf|
  }

  lemma ReadFramed(p: seq<byte>, rest: seq<byte>, buf: seq<byte>)
    requires |buf| >= 3
    ensures var (r, left) := ReadStream(Framed(p) + rest, buf);
            if |p| < 0x1_0000 then if Fits(p, buf) then (r, left) == (Ok(p), rest) else r.Err?
            else r.Err? || |r.data| < 0x1_0000
  {
    assert Framed(p) + rest == Header(|p|) + (p + rest);
    HeaderLength(|p|, p + rest);
  }

  lemma ReadSent(p: seq<byte>, rest: seq<byte>, buf: seq<byte>)
    requires |buf| >= 3
    ensures Fits(p, buf) ==> ReadStream(Sent(p, false) + rest, buf) == (Ok(p), rest)
    ensures !Fits(p, buf) ==> ReadStream(Sent(p, false) + rest, buf).0 != Ok(p)
  {
    ReadFramed(p, rest, buf);
    if |p| < 0x1_0000 {
      SentWhole(p, false);
    } else {
      ReadFramed(p[..|p| % 0x1_0000], rest, buf);
    }
  }

  lemma ReadManyIff(bs: seq<byte>, buf: seq<byte>, ps: seq<seq<byte>>, tail: seq<byte>)
    requires |buf| >= 3 && ps != []
    ensures var (r, rest) := ReadStream(bs, buf);
            ReadMany(bs, buf, |ps|) == Some((ps, tail)) <==>
            r == Ok(ps[0]) && ReadMany(rest, buf, |ps| - 1) == Some((ps[1..], tail))
  {
    var (r, rest) := ReadStream(bs, buf);
    assert ps == [ps[0]] + ps[1..];
    if r.Ok? && ReadMany(rest, buf, |ps| - 1).Some? {
      var others := ReadMany(rest, buf, |ps| - 1).value.0;
      assert ([r.data] + others)[0] == r.data && ([r.data] + others)[1..] == others;
    }
  }

  /** A stream returns exactly the packets that were sent, in order, and leaves what follows,
      if and only if each is at most the maximum packet size and fits the buffer. */
  lemma {:induction false} StreamRoundTripIff(ps: seq<seq<byte>>, tail: seq<byte>, buf: seq<byte>)
    requires |buf| >= 3
    ensures ReadMany(Wired(ps) + tail, buf, |ps|) == Some((ps, tail)) <==> forall p :: p in ps ==> Fits(p, buf)
  {
    if ps == [] {
      assert Wired(ps) + tail == tail;
    } else {
      assert Wired(ps) + tail == Sent(ps[0], false) + (Wired(ps[1..]) + tail);
      ReadSent(ps[0], Wired(ps[1..]) + tail, buf);
      StreamRoundTripIff(ps[1..], tail, buf);
      assert forall p :: p in ps <==> p == ps[0] || p in ps[1..];
      ReadManyIff(Wired(ps) + tail, buf, ps, tail);
    }
  }

  /** The same over a packet-oriented connection, one packet a message. */
  lemma MessageRoundTripIff(p: seq<byte>)
    ensures ReadMessage(Sent(p, true), MAX_XOT_PACKET_SIZE) == Ok(p) <==> |p| <= MAX_X25_PACKET_SIZE
  {
    var q := p[..|p| % 0x1_0000];
    HeaderLength(|q|, q);
    if |p| < 0x1_0000 {
      SentWhole(p, true);
    }
    if |Framed(q)| > MAX_XOT_PACKET_SIZE {
      var got := Framed(q)[..MAX_XOT_PACKET_SIZE];
      assert Word(got, 2) == Word(Framed(q), 2);
    }
  }

  // ---- the connection ----

  /** One direction of a connection: a byte stream, or a queue of messages. */
  class Connection {
    const isPacket: bool
    var bytes: seq<byte>
    var messages: seq<seq<byte>>

    constructor (isPacket: bool)
      ensures this.isPacket == isPacket && bytes == [] && messages == []
    {
      this.isPacket, bytes, messages := isPacket, [], [];
    }

    method Write(data: seq<byte>)
      modifies this
      ensures bytes == if isPacket then old(bytes) else old(bytes) + data
      ensures messages == if isPacket then old(messages) + [data] else old(messages)
    {
      if isPacket {
        messages := messages + [data];
      } else {
        bytes := bytes + data;
      }
    }

    // io.ReadFull: all n bytes, or an error that uses up whatever there was.
    method ReadFull(n: nat) returns (data: Option<seq<byte>>)
      requires !isPacket
      modifies this
      ensures messages == old(messages)
      ensures if |old(bytes)| < n then data == None && bytes == []
              else data == Some(old(bytes)[..n]) && bytes == old(bytes)[n..]
    {
      if |bytes| < n {
        bytes := [];
        return None;
      }
      data := Some(bytes[..n]);
      bytes := bytes[n..];
    }

    /** One frame appended, whichever write path is taken: a message of its own on a packet
        connection, the same bytes by one or two writes on a stream. A single write cannot
        take more than the pooled buffer holds. */
    method SendXot(data: seq<byte>)
      requires isPacket ==> |data| % 0x1_0000 <= MAX_X25_PACKET_SIZE
      modifies this
      ensures bytes == if isPacket then old(bytes) else old(bytes) + Sent(data, false)
      ensures messages == if isPacket then old(messages) + [Sent(data, true)] else old(messages)
    {
      var length := |data| % 0x1_0000;
      var header := Header(length);
      if isPacket || length < SINGLE_WRITE_LIMIT {
        var frame := OneBuffer(data, length);
        Write(frame);
      } else {
        Write(header);
        Write(data);
        assert old(bytes) + header + data == old(bytes) + Framed(data);
      }
    }

    // The pooled buffer with the header and as much of the packet as fits, up to length.
    static method OneBuffer(data: seq<byte>, length: nat) returns (frame: seq<byte>)
      requires length <= |data| && length <= MAX_X25_PACKET_SIZE
      ensures frame == Framed(data[..length])
    {
      var header := Header(length);
      var buf := new byte[MAX_XOT_PACKET_SIZE](_ => 0);
      buf[0], buf[1], buf[2], buf[3] := header[0], header[1], header[2], header[3];
      var copied := if |data| < buf.Length - 4 then |data| else buf.Length - 4;
      forall i | 0 <= i < copied {
        buf[4 + i] := data[i];
      }
      assert buf[..4] == header && buf[4..4 + length] == data[..length];
      assert buf[..4 + length] == buf[..4] + buf[4..4 + length];
      return buf[..4 + length];
    }

    method ReadXotInto(buf: array<byte>) returns (r: ReadResult)
      requires isPacket ==> |messages| > 0
      requires buf.Length >= 3
      modifies this, buf
      ensures isPacket ==> r == ReadMessage(old(messages)[0], buf.Length)
                           && messages == old(messages)[1..] && bytes == old(bytes)
      ensures !isPacket ==> (r, bytes) == ReadStream(old(bytes), old(buf[..])) && messages == old(messages)
    {
      if isPacket {
        r := ReadOneMessage(buf);
        return;
      }
      var header := ReadFull(4);
      if header.None? {
        return Err(Eof);
      }
      if Word(header.value, 0) != 0 {
        return Err(BadVersion);
      }
      var length := Word(header.value, 2);
      assert Word(old(bytes), 2) == length;
      if length > MAX_X25_PACKET_SIZE {
        var first := if |bytes| < 3 then bytes else bytes[..3];
        var _ := ReadFull(3);
        forall i | 0 <= i < |first| {
          buf[i] := first[i];
        }
        assert buf[..3] == first + old(buf[..])[|first|..3];
        assert |first| == 3 ==> buf[..3] == first;
        return Err(TooLong(buf[..3]));
      }
      if length > buf.Length {
        return Err(BufferTooSmall);
      }
      var data := ReadFull(length);
      if data.None? {
        return Err(Eof);
      }
      forall i | 0 <= i < length {
        buf[i] := data.value[i];
      }
      assert buf[..length] == data.value;
      return Ok(buf[..length]);
    }

    method ReadOneMessage(buf: array<byte>) returns (r: ReadResult)
      requires isPacket && |messages| > 0
      modifies this, buf
      ensures r == ReadMessage(old(messages)[0], buf.Length)
      ensures messages == old(messages)[1..] && bytes == old(bytes)
    {
      var msg := messages[0];
      messages := messages[1..];
      var n := if |msg| <= buf.Length then |msg| else buf.Length;
      forall i | 0 <= i < n {
        buf[i] := msg[i];
      }
      assert buf[..n] == if |msg| <= buf.Length then msg else msg[..buf.Length];
      if n < 4 {
        return Err(Eof);
      }
      if Word(buf[..n], 0) != 0 {
        return Err(BadVersion);
      }
      var length := Word(buf[..n], 2);
      if length > MAX_X25_PACKET_SIZE {
        return Err(TooLong(buf[4..n]));
      }
      if length != n - 4 {
        return Err(LengthMismatch);
      }
      return Ok(buf[4..n]);
    }
  }
}

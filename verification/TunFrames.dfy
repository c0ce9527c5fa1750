/** Frames of the X.25 TUN device: a five-byte prefix with the X.25 EtherType and a control
    header, then the packet. */
module TunFrames {
  import opened Wire

  const MAX_PACKET_SIZE := MAX_X25_PACKET_SIZE + 5

  datatype Frame = Frame(hdr: byte, data: seq<byte>)

  function Encoded(f: Frame): seq<byte> {
    [0, 0, 8, 5, f.hdr] + f.data
  }

  // What a read into the buffer makes of a raw frame; anything else is skipped.
  function Recognized(raw: seq<byte>, bufLen: nat): Option<Frame> {
    var got := if |raw| <= bufLen then raw else raw[..bufLen];
    if |got| < 5 || got[2] != 8 || got[3] != 5 then None else Some(Frame(got[4], got[5..]))
  }

  // The next frame and the raw frames after it; nothing at the end of the queue.
  function NextFrame(raws: seq<seq<byte>>, bufLen: nat): Option<(Frame, seq<seq<byte>>)> {
    if raws == [] then None
    else match Recognized(raws[0], bufLen)
      case Some(f) => Some((f, raws[1..]))
      case None => NextFrame(raws[1..], bufLen)
  }

  lemma {:induction false} NextFrameShorter(raws: seq<seq<byte>>, bufLen: nat)
    ensures NextFrame(raws, bufLen).Some? ==> |NextFrame(raws, bufLen).value.1| < |raws|
  {
    if raws != [] && Recognized(raws[0], bufLen).None? {
      NextFrameShorter(raws[1..], bufLen);
    }
  }

  function AllFrames(raws: seq<seq<byte>>, bufLen: nat): seq<Frame>
    decreases |raws|
  {
    NextFrameShorter(raws, bufLen);
    match NextFrame(raws, bufLen)
    case None => []
    case Some((f, rest)) => [f] + AllFrames(rest, bufLen)
  }

  // raws is the encodings of fs in order, with foreign frames anywhere between them.
  ghost predicate Mixed(raws: seq<seq<byte>>, fs: seq<Frame>, bufLen: nat) {
    if raws == [] then fs == []
    else || (Recognized(raws[0], bufLen).None? && Mixed(raws[1..], fs, bufLen))
         || (fs != [] && raws[0] == Encoded(fs[0]) && Mixed(raws[1..], fs[1..], bufLen))
  }

  /** Reading returns exactly the written frames, in order, whatever foreign or short frames
      the device delivers among them. */
  lemma {:induction false} ForeignFramesSkipped(raws: seq<seq<byte>>, fs: seq<Frame>, bufLen: nat)
    requires Mixed(raws, fs, bufLen) && forall f :: f in fs ==> |f.data| + 5 <= bufLen
    ensures AllFrames(raws, bufLen) == fs
    decreases |raws|
  {
    if raws != [] {
      if Recognized(raws[0], bufLen).None? && Mixed(raws[1..], fs, bufLen) {
        ForeignFramesSkipped(raws[1..], fs, bufLen);
        assert NextFrame(raws, bufLen) == NextFrame(raws[1..], bufLen);
      } else {
        assert Encoded(fs[0])[5..] == fs[0].data;
        assert Recognized(raws[0], bufLen) == Some(fs[0]);
        assert fs == [fs[0]] + fs[1..];
        ForeignFramesSkipped(raws[1..], fs[1..], bufLen);
      }
    }
  }

  // A device that had taken log took n bytes of one more frame.
  predicate Partly(log: seq<seq<byte>>, raw: seq<byte>, n: nat, log': seq<seq<byte>>) {
    n <= |raw| && log' == log + if n == 0 then [] else [raw[..n]]
  }

  class TunDevice {
    var incoming: seq<seq<byte>>
    var written: seq<seq<byte>>

    constructor (incoming: seq<seq<byte>>)
      ensures this.incoming == incoming && written == []
    {
      this.incoming, written := incoming, [];
    }

    // A write may fail, and may accept only a part of the data with or without failing.
    method Write(data: seq<byte>) returns (n: nat, failed: bool)
      modifies this`written
      ensures n <= |data| && written == old(written) + if n == 0 then [] else [data[..n]]
    {
      n, failed := *, *;
      if n > |data| {
        n := |data|;
      }
      if n > 0 {
        written := written + [data[..n]];
      }
    }

    method ReadFrame(buf: array<byte>) returns (r: Option<Frame>)
      modifies this`incoming, buf
      ensures match NextFrame(old(incoming), buf.Length)
              case None => r == None && incoming == []
              case Some((f, rest)) => r == Some(f) && incoming == rest
    {
      while incoming != []
        invariant NextFrame(incoming, buf.Length) == NextFrame(old(incoming), buf.Length)
        decreases |incoming|
      {
        var raw := incoming[0];
        incoming := incoming[1..];
        var n := if |raw| <= buf.Length then |raw| else buf.Length;
        forall i | 0 <= i < n {
          buf[i] := raw[i];
        }
        assert buf[..n] == if |raw| <= buf.Length then raw else raw[..buf.Length];
        if n < 4 {
          continue;
        }
        if buf[2] != 8 || buf[3] != 5 {
          continue;
        }
        if n < 5 {
          continue;
        }
        return Some(Frame(buf[4], buf[5..n]));
      }
      return None;
    }

    method WriteFrameInto(hdr: byte, data: seq<byte>, buf: array<byte>) returns (ok: bool)
      requires buf.Length == |data| + 5
      modifies this`written, buf
      ensures ok ==> written == old(written) + [Encoded(Frame(hdr, data))]
      ensures !ok ==> exists n: nat :: n <= |data| + 5 && Partly(old(written), Encoded(Frame(hdr, data)), n, written)
    {
      buf[0], buf[1], buf[2], buf[3], buf[4] := 0, 0, 8, 5, hdr;
      forall i | 0 <= i < |data| {
        buf[5 + i] := data[i];
      }
      assert buf[..] == Encoded(Frame(hdr, data));
      var n, failed := Write(buf[..]);
      assert Partly(old(written), Encoded(Frame(hdr, data)), n, written);
      ok := !failed && n == buf.Length;
      assert ok ==> Encoded(Frame(hdr, data))[..n] == Encoded(Frame(hdr, data));
    }
  }
}

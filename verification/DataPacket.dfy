/** DATA packets (ITU-T X.25, section 5): sequence numbers and the M bit in a three-byte
    header modulo 8 or a four-byte header modulo 128. */
module DataPacket {
  import opened Wire

  function MBit(m: bool): nat {
    if m then 1 else 0
  }

  function Control(gfi: byte, pS: byte, pR: byte, m: bool): seq<byte> {
    if gfi == GFI_MOD128 then [pS % 128 * 2, pR % 128 * 2 + MBit(m)]
    else [pR % 8 * 32 + MBit(m) * 16 + pS % 8 * 2]
  }

  function Data(gfi: byte, lci: LciField, pS: byte, pR: byte, m: bool, payload: seq<byte>): seq<byte> {
    [gfi * 16 % 256 + lci / 256 % 16, lci % 256] + Control(gfi, pS, pR, m) + payload
  }

  // What a receiver reads back: P(S), P(R), M and the user data.
  datatype Fields = Fields(pS: nat, pR: nat, m: bool, payload: seq<byte>)

  function Read(modulo128: bool, d: seq<byte>): Fields
    requires |d| >= if modulo128 then 4 else 3
  {
    if modulo128 then Fields(d[2] / 2, d[3] / 2, d[3] % 2 == 1, d[4..])
    else Fields(d[2] / 2 % 8, d[2] / 32, d[2] / 16 % 2 == 1, d[3..])
  }

  /** A DATA packet names its call, is never mistaken for a control packet (its type byte is
      even), and carries the sequence numbers, reduced to the window's modulus, the M bit and
      the user data. */
  lemma DataReadsBack(gfi: byte, lci: LciField, pS: byte, pR: byte, m: bool, payload: seq<byte>)
    ensures var d := Data(gfi, lci, pS, pR, m, payload);
            var modulus := if gfi == GFI_MOD128 then 128 else 8;
            && GetGFI(d) == gfi % 16 && GetLCI(d) == lci % 4096 && GetType(d) % 2 == 0
            && Read(gfi == GFI_MOD128, d) == Fields(pS % modulus, pR % modulus, m, payload)
  {
    HeaderByte(gfi, lci);
    var d := Data(gfi, lci, pS, pR, m, payload);
    if gfi == GFI_MOD128 {
      assert d[4..] == payload;
    } else {
      assert d[3..] == payload;
      ControlByte(pR % 8, MBit(m), pS % 8);
    }
  }

  lemma ControlByte(r: nat, m: nat, s: nat)
    requires r < 8 && m < 2 && s < 8
    ensures var b := r * 32 + m * 16 + s * 2;
            b < 256 && b / 2 % 8 == s && b / 16 % 2 == m && b / 32 == r && b % 2 == 0
  {
  }

  method CreateData(gfi: byte, lci: LciField, pS: byte, pR: byte, mbit: bool, payload: seq<byte>)
    returns (pkt: array<byte>)
    ensures fresh(pkt) && pkt[..] == Data(gfi, lci, pS, pR, mbit, payload)
  {
    var head := Control(gfi, pS, pR, mbit);
    var n := 2 + |head|;
    pkt := new byte[n + |payload|](_ => 0);
    pkt[0] := gfi * 16 % 256 + lci / 256 % 16;
    pkt[1] := lci % 256;
    pkt[2] := head[0];
    if gfi == GFI_MOD128 {
      pkt[3] := head[1];
    }
    forall i | 0 <= i < |payload| {
      pkt[n + i] := payload[i];
    }
    assert pkt[..2] == [gfi * 16 % 256 + lci / 256 % 16, lci % 256];
    assert pkt[2..n] == head;
    assert pkt[n..] == payload;
    assert pkt[..] == pkt[..2] + pkt[2..n] + pkt[n..];
  }
}

/** X.25 packet headers as they appear on the wire: the GFI nibble, the 12-bit
    LCI that every relay rewrites, and the packet type (ITU-T X.25, section 5). */
module Wire {

  type byte = x: int | 0 <= x < 256
  newtype uint16 = x: int | 0 <= x < 0x1_0000

  // A 16-bit field holding an LCI, and the values its 12 bits on the wire can carry.
  type LciField = x: int | 0 <= x < 0x1_0000
  type Lci = x: int | 0 <= x < 4096

  datatype Option<+T> = None | Some(value: T)

  // The link layer of a TUN interface, as each program tracks it.
  datatype Link = Down | Connecting | Operational

  const LCI_MIN := 1
  const LCI_MAX := 4095
  const HEADER_DATA: byte := 0
  const HEADER_CONNECT: byte := 1
  const HEADER_DISCONNECT: byte := 2
  const GFI_MOD8: byte := 1
  const GFI_MOD128: byte := 2

  const CALL_REQUEST: byte := 0x0B
  const CALL_CONNECTED: byte := 0x0F
  const CLEAR_REQUEST: byte := 0x13
  const CLEAR_CONFIRM: byte := 0x17
  const INTERRUPT: byte := 0x23
  const INTERRUPT_CONFIRM: byte := 0x27
  const RESTART_REQUEST: byte := 0xFB
  const RESTART_CONFIRM: byte := 0xFF

  predicate IsClear(ptype: byte) {
    ptype == CLEAR_REQUEST || ptype == CLEAR_CONFIRM
  }

  const CAUSE_NETWORK_CONGESTION: byte := 0x05
  const CAUSE_OUT_OF_ORDER: byte := 0x09
  const CAUSE_LOCAL_PROCEDURE_ERROR: byte := 0x42

  const DIAG_PACKET_TOO_LONG: byte := 39

  const MAX_X25_PACKET_SIZE := 4107

  // The getters return 0 when the packet is too short to hold the field.
  function GetGFI(data: seq<byte>): byte {
    if |data| < 1 then 0 else data[0] / 16
  }

  function GetLCI(data: seq<byte>): Lci {
    if |data| < 2 then 0
    else
      var high: int := data[0] % 16;
      high * 256 + data[1]
  }

  function GetType(data: seq<byte>): byte {
    if |data| < 3 then 0 else data[2]
  }

  /** The in-place header rewrite every relay applies before forwarding: the low
      nibble of byte 0 and the whole of byte 1 receive the new LCI. */
  function Relabel(data: seq<byte>, lci: LciField): seq<byte>
    requires |data| >= 2
  {
    [data[0] / 16 * 16 + lci / 256 % 16, lci % 256] + data[2..]
  }

  /** The same in place. */
  method RewriteLci(payload: array<byte>, lci: LciField)
    requires payload.Length >= 2
    modifies payload
    ensures payload[..] == Relabel(old(payload[..]), lci)
  {
    payload[0] := payload[0] / 16 * 16 + lci / 256 % 16;
    payload[1] := lci % 256;
    assert payload[2..] == old(payload[2..]);
    assert payload[..] == payload[..2] + payload[2..];
  }

  /** Rewriting the LCI sets exactly the 12 LCI bits. */
  lemma RelabelFrame(data: seq<byte>, lci: LciField)
    requires |data| >= 2
    ensures GetLCI(Relabel(data, lci)) == lci % 4096
    ensures GetGFI(Relabel(data, lci)) == GetGFI(data)
    ensures GetType(Relabel(data, lci)) == GetType(data)
    ensures Relabel(data, lci)[2..] == data[2..]
  {
    HeaderByte(data[0] / 16, lci);
  }

  /** Translating there and back restores every bit, so LCI translation loses nothing. */
  lemma RelabelUndo(data: seq<byte>, lci: LciField)
    requires |data| >= 2
    ensures Relabel(Relabel(data, lci), GetLCI(data)) == data
  {
    RelabelFrame(data, lci);
    var back := Relabel(Relabel(data, lci), GetLCI(data));
    assert back[2..] == data[2..];
    assert back[0] == data[0] && back[1] == data[1];
    assert back == [back[0], back[1]] + back[2..];
    assert data == [data[0], data[1]] + data[2..];
  }

  datatype Packet = Packet(gfi: byte, lci: LciField, ptype: byte, payload: seq<byte>)

  function ParseX25(data: seq<byte>): Option<Packet> {
    if |data| < 3 then None
    else Some(Packet(GetGFI(data), GetLCI(data), GetType(data), data[3..]))
  }

  // lci is a uint16 field: bits above the twelfth are masked away, and the GFI
  // shift drops anything above its low nibble.
  function Serialize(p: Packet): seq<byte> {
    [(p.gfi * 16) % 256 + p.lci / 256 % 16, p.lci % 256, p.ptype] + p.payload
  }

  /** Every packet long enough to parse is reproduced exactly by serializing it. */
  lemma SerializeParsed(data: seq<byte>)
    requires |data| >= 3
    ensures ParseX25(data).Some?
    ensures Serialize(ParseX25(data).value) == data
  {
    var p := ParseX25(data).value;
    assert Serialize(p)[..3] == data[..3];
    assert Serialize(p)[3..] == data[3..];
    assert data == data[..3] + data[3..];
    assert Serialize(p) == Serialize(p)[..3] + Serialize(p)[3..];
  }

  /** A packet survives the wire exactly when its GFI fits a nibble and its LCI
      fits twelve bits; anything wider is silently truncated. */
  lemma ParseSerialized(p: Packet)
    ensures ParseX25(Serialize(p)) == Some(p) <==> p.gfi < 16 && p.lci < 4096
  {
    var d := Serialize(p);
    assert d[3..] == p.payload;
    HeaderByte(p.gfi, p.lci);
  }

  lemma HeaderByte(gfi: byte, lci: LciField)
    ensures var b := (gfi * 16) % 256 + lci / 256 % 16;
            b / 16 == gfi % 16 && b % 16 == lci / 256 % 16
    ensures (lci / 256 % 16) * 256 + lci % 256 == lci % 4096
  {
    assert (gfi * 16) % 256 == gfi % 16 * 16;
  }

  function ClearRequest(gfi: byte, lci: LciField, cause: byte, diag: byte): seq<byte> {
    Serialize(Packet(gfi, lci, CLEAR_REQUEST, [cause, diag]))
  }

  function NegotiateGFI(callerGFI: byte): byte {
    if callerGFI < GFI_MOD128 then callerGFI else GFI_MOD128
  }
}

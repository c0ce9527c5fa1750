/** x25_ping's own call-request encoder. It writes a high half by plain assignment and ors a
    low half in without masking it, which matters for upper-case hex digits. */
module PingEncoder {
  import opened Wire
  import opened CallRequest

  // Its digit value, in byte arithmetic: anything but 0 to 9 is taken relative to 'a'.
  function PingNib(c: char): byte {
    if '0' <= c <= '9' then c as int - '0' as int
    else (c as int - 'a' as int + 10) % 256
  }

  // A high half is stored shifted; a low half is or-ed in unmasked.
  function PingHigh(c: char): byte {
    var n: int := PingNib(c);
    n * 16 % 256
  }

  function PingAt(s: string, j: nat): byte
    requires 2 * j < |s|
  {
    if 2 * j + 1 < |s| then Or8(PingHigh(s[2 * j]), PingNib(s[2 * j + 1])) else PingHigh(s[2 * j])
  }

  function PingPack(s: string): seq<byte> {
    seq(PackedLen(|s|), j requires 0 <= j < PackedLen(|s|) => PingAt(s, j))
  }

  // An upper-case digit in a low half leaves stray bits in the high half unless the digit
  // there is e or f.
  predicate PingSafe(s: string) {
    forall j :: 0 <= j < |s| && 2 * j + 1 < |s| && IsUpper(s[2 * j + 1]) ==> Value(s[2 * j]) >= 14
  }

  lemma PingNibHex(c: char)
    requires IsHex(c)
    ensures PingHigh(c) == Join(Value(c), 0)
    ensures PingNib(c) == if IsUpper(c) then Join(14, Value(c)) else Value(c)
  {
  }

  lemma Or14(h: Nibble)
    ensures Or(h, 14) == h <==> h >= 14
  {
    assert Or(h / 8, 1) == 1;
    assert Or(h / 4, 3) == 3;
    assert Or(h / 2, 7) == 7;
  }

  lemma PingByte(high: char, low: char)
    requires IsHex(high) && IsHex(low)
    ensures Or8(PingHigh(high), PingNib(low)) == Join(Value(high), Value(low))
            <==> (IsUpper(low) ==> Value(high) >= 14)
  {
    PingNibHex(high);
    PingNibHex(low);
    if IsUpper(low) {
      StrayBits(Value(high), Value(low));
    } else {
      OrHalves(Value(high), Value(low));
    }
  }

  lemma StrayBits(high: Nibble, low: Nibble)
    ensures Or8(Join(high, 0), Join(14, low)) == Join(high, low) <==> high >= 14
  {
    JoinSplits(high, 0);
    JoinSplits(14, low);
    Or14(high);
    OrBelow(high, 14, 16);
    JoinSplits(Or(high, 14), low);
    JoinSplits(high, low);
  }

  /** x25_ping's block is the packed one exactly for PingSafe addresses; in particular for
      all lower-case ones. */
  lemma PingPackIff(s: string)
    requires forall c :: c in s ==> IsHex(c)
    ensures PingPack(s) == Pack(Values(s)) <==> PingSafe(s)
  {
    forall j | 0 <= j < PackedLen(|s|)
      ensures PingAt(s, j) == PackAt(Values(s), j)
              <==> (2 * j + 1 < |s| && IsUpper(s[2 * j + 1]) ==> Value(s[2 * j]) >= 14)
    {
      PingNibHex(s[2 * j]);
      if 2 * j + 1 < |s| {
        PingByte(s[2 * j], s[2 * j + 1]);
      }
    }
    if PingPack(s) == Pack(Values(s)) {
      forall j | 0 <= j < |s| && 2 * j + 1 < |s| && IsUpper(s[2 * j + 1]) ensures Value(s[2 * j]) >= 14 {
        assert PingPack(s)[j] == PingAt(s, j) && Pack(Values(s))[j] == PackAt(Values(s), j);
      }
    }
  }

  // Lengths that do not fit their nibble or byte are truncated.
  function PingPayload(called: string, calling: string, facilities: seq<byte>, cud: seq<byte>): seq<byte> {
    [Join(|calling| % 16, |called| % 16)] + PingPack(called + calling) + [|facilities| % 256] + facilities + cud
  }

  predicate LengthsFit(called: string, calling: string, facilities: seq<byte>) {
    |called| <= 15 && |calling| <= 15 && |facilities| <= 255
  }

  lemma DigitsInjective(ns: seq<Nibble>, s: string)
    requires Digits(ns) == Canonical(s)
    ensures ns == Values(s)
  {
    assert |ns| == |Digits(ns)| == |s|;
    forall i | 0 <= i < |s| ensures ns[i] == Value(s[i]) {
      assert Digits(ns)[i] == Digit(ns[i]) && Canonical(s)[i] == Digit(Value(s[i]));
      ValueOfDigit(ns[i]);
      ValueOfDigit(Value(s[i]));
    }
  }

  // Its pad nibble is zero, so the block is determined by the digits it decodes to.
  lemma BlockFromDigits(s: string)
    requires forall c :: c in s ==> IsHex(c)
    requires Nibbles(PingPack(s))[..|s|] == Values(s)
    ensures PingPack(s) == Pack(Values(s))
  {
    var block := PingPack(s);
    PackUnpacked(block, |s|);
    if |s| < 2 * |block| {
      var last := |block| - 1;
      PadIsZero(s, last);
    }
    PadAlreadyZero(block, |s|);
  }

  lemma PadIsZero(s: string, last: nat)
    requires |s| == 2 * last + 1 && IsHex(s[2 * last])
    ensures PingAt(s, last) % 16 == 0
  {
    PingNibHex(s[2 * last]);
    JoinSplits(Value(s[2 * last]), 0);
  }

  // The addresses decode correctly exactly when the block is the packed one.
  lemma DecodesIff(called: string, calling: string)
    requires forall c :: c in called + calling ==> IsHex(c)
    ensures var s := called + calling;
            SplitDigits(PingPack(s), |called|, |calling|) == (Canonical(called), Canonical(calling))
            <==> PingPack(s) == Pack(Values(s))
  {
    var s := called + calling;
    SplitPacked(called, calling);
    var ns := Nibbles(PingPack(s));
    if SplitDigits(PingPack(s), |called|, |calling|) == (Canonical(called), Canonical(calling)) {
      DigitsInjective(ns[..|called|], called);
      DigitsInjective(ns[|called|..|called| + |calling|], calling);
      ValuesConcat(called, calling);
      assert ns[..|s|] == ns[..|called|] + ns[|called|..|called| + |calling|];
      BlockFromDigits(s);
    }
  }

  // What ParseCall answers always has the lengths that the packet announces at most.
  lemma ParsedLengths(p: Packet)
    requires ParseCall(p, CALL_REQUEST).Ok?
    ensures var c := ParseCall(p, CALL_REQUEST).value;
            |c.called| <= 15 && |c.calling| <= 15 && |c.facilities| <= 255
  {
  }

  lemma ShortLengthsParse(called: string, calling: string, facilities: seq<byte>, cud: seq<byte>, lci: LciField)
    requires LengthsFit(called, calling, facilities)
    ensures ParseCall(Packet(GFI_MOD128, lci, CALL_REQUEST, PingPayload(called, calling, facilities, cud)), CALL_REQUEST) ==
            var (a, b) := SplitDigits(PingPack(called + calling), |called|, |calling|); Ok(CallFields(a, b, facilities, cud))
  {
    var block := PingPack(called + calling);
    AssembledParses(Packet(GFI_MOD128, lci, CALL_REQUEST, PingPayload(called, calling, facilities, cud)),
                    |called|, |calling|, block, facilities, cud);
  }

  /** x25_ping's call request carries what it was given exactly when every length fits its
      field and no upper-case digit lands in a low half behind a digit other than e or f. As
      long as the lengths fit, facilities and user data always survive. */
  lemma PingRoundTripIff(called: string, calling: string, facilities: seq<byte>, cud: seq<byte>, lci: LciField)
    requires forall c :: c in called + calling ==> IsHex(c)
    ensures var r := ParseCall(Packet(GFI_MOD128, lci, CALL_REQUEST, PingPayload(called, calling, facilities, cud)),
                               CALL_REQUEST);
            && (LengthsFit(called, calling, facilities) ==>
                  r.Ok? && r.value.facilities == facilities && r.value.userData == cud)
            && (r == Ok(CallFields(Canonical(called), Canonical(calling), facilities, cud))
                <==> LengthsFit(called, calling, facilities) && PingSafe(called + calling))
  {
    var p := Packet(GFI_MOD128, lci, CALL_REQUEST, PingPayload(called, calling, facilities, cud));
    if LengthsFit(called, calling, facilities) {
      ShortLengthsParse(called, calling, facilities, cud, lci);
      DecodesIff(called, calling);
      PingPackIff(called + calling);
    } else if ParseCall(p, CALL_REQUEST).Ok? {
      ParsedLengths(p);
    }
  }

  /** The mangled address of a concrete call: "1A" arrives as "fa". */
  lemma PingMangles()
    ensures Canonical("1A") == "1a"
    ensures SplitDigits(PingPack("1A"), 2, 0).0 == "fa"
  {
    assert PingHigh('1') == 16 && PingNib('A') == 0xEA;
    assert Or8(16, 0xEA) == 0xFA;
    var block := PingPack("1A");
    assert block == [PingAt("1A", 0)];
    assert Nibbles(block)[..2] == [15, 10];
  }

  // The closure that writes one digit after another through a moving nibble index.
  method WriteNibbles(addrData: array<byte>, start: nat, s: string, ghost before: string)
    requires |before| == start && start + |s| <= 2 * addrData.Length
    requires addrData[..PackedLen(start)] == PingPack(before)
    modifies addrData
    ensures addrData[..PackedLen(start + |s|)] == PingPack(before + s)
  {
    var nibbleIdx := start;
    assert before + s[..0] == before;
    for i := 0 to |s|
      invariant nibbleIdx == start + i
      invariant addrData[..PackedLen(nibbleIdx)] == PingPack(before + s[..i])
    {
      PutNibble(addrData, nibbleIdx, s[i], before + s[..i]);
      assert before + s[..i + 1] == (before + s[..i]) + [s[i]];
      nibbleIdx := nibbleIdx + 1;
    }
    assert s[..|s|] == s;
  }

  method PutNibble(addrData: array<byte>, nibbleIdx: nat, c: char, ghost before: string)
    requires |before| == nibbleIdx < 2 * addrData.Length
    requires addrData[..PackedLen(nibbleIdx)] == PingPack(before)
    modifies addrData
    ensures addrData[..PackedLen(nibbleIdx + 1)] == PingPack(before + [c])
  {
    ghost var was := addrData[..PackedLen(nibbleIdx)];
    AppendDigit(before, c);
    if nibbleIdx % 2 == 0 {
      addrData[nibbleIdx / 2] := PingHigh(c);
      assert addrData[..PackedLen(nibbleIdx + 1)] == was + [PingHigh(c)];
    } else {
      assert was[nibbleIdx / 2] == addrData[nibbleIdx / 2];
      addrData[nibbleIdx / 2] := Or8(addrData[nibbleIdx / 2], PingNib(c));
      assert addrData[..PackedLen(nibbleIdx + 1)] == was[..nibbleIdx / 2] + [addrData[nibbleIdx / 2]];
    }
  }

  lemma AppendDigit(s: string, c: char)
    ensures var p, p', n := PingPack(s), PingPack(s + [c]), |s|;
            if n % 2 == 0 then p' == p + [PingHigh(c)]
            else p' == p[..n / 2] + [Or8(p[n / 2], PingNib(c))]
  {
    var s' := s + [c];
    forall j | 0 <= j < |s| / 2 ensures PingAt(s', j) == PingAt(s, j) {
    }
  }

  method BuildCallRequest(lci: LciField, called: string, calling: string, facilities: seq<byte>, cud: seq<byte>)
    returns (packet: seq<byte>)
    ensures packet == Serialize(Packet(GFI_MOD128, lci, CALL_REQUEST, PingPayload(called, calling, facilities, cud)))
  {
    var addrData := new byte[PackedLen(|called| + |calling|)](_ => 0);
    WriteNibbles(addrData, 0, called, "");
    assert "" + called == called;
    WriteNibbles(addrData, |called|, calling, called);
    assert addrData[..] == addrData[..PackedLen(|called| + |calling|)];
    assert addrData[..] == PingPack(called + calling);
    var payload := [Join(|calling| % 16, |called| % 16)];
    payload := payload + addrData[..];
    payload := payload + [|facilities| % 256];
    payload := payload + facilities;
    payload := payload + cud;
    packet := Serialize(Packet(GFI_MOD128, lci, CALL_REQUEST, payload));
  }
}

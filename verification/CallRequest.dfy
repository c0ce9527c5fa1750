/** The call set-up packet: two addresses packed as nibbles, the second starting in the
    middle of a byte when the first has odd length, then facilities and user data. */
module CallRequest {
  import opened Wire

  type Nibble = x: int | 0 <= x < 16

  // ---- nibbles ----

  function Join(high: Nibble, low: Nibble): byte {
    var h: int := high;
    h * 16 + low
  }

  lemma JoinSplits(high: Nibble, low: Nibble)
    ensures Join(high, low) / 16 == high && Join(high, low) % 16 == low
  {
  }

  function NibbleAt(bs: seq<byte>, i: nat): Nibble
    requires i < 2 * |bs|
  {
    if i % 2 == 0 then bs[i / 2] / 16 else bs[i / 2] % 16
  }

  function Nibbles(bs: seq<byte>): seq<Nibble> {
    seq(2 * |bs|, i requires 0 <= i < 2 * |bs| => NibbleAt(bs, i))
  }

  // How many bytes n nibbles take.
  function PackedLen(n: nat): (r: nat)
    ensures n <= 2 * r <= n + 1
  {
    (n + 1) / 2
  }

  // Two nibbles a byte, high one first; an odd last nibble is padded with zero.
  function PackAt(ns: seq<Nibble>, j: nat): byte
    requires 2 * j < |ns|
  {
    Join(ns[2 * j], if 2 * j + 1 < |ns| then ns[2 * j + 1] else 0)
  }

  function Pack(ns: seq<Nibble>): seq<byte> {
    seq(PackedLen(|ns|), j requires 0 <= j < PackedLen(|ns|) => PackAt(ns, j))
  }

  lemma UnpackPacked(ns: seq<Nibble>)
    ensures |Pack(ns)| == PackedLen(|ns|)
    ensures Nibbles(Pack(ns))[..|ns|] == ns
  {
    forall i | 0 <= i < |ns| ensures NibbleAt(Pack(ns), i) == ns[i] {
      var j := i / 2;
      assert Pack(ns)[j] == PackAt(ns, j);
      JoinSplits(ns[2 * j], if 2 * j + 1 < |ns| then ns[2 * j + 1] else 0);
    }
  }

  // The block of n nibbles with its pad nibble, if it has one, set to zero.
  function ZeroPadded(bs: seq<byte>, n: nat): seq<byte>
    requires |bs| == PackedLen(n)
  {
    if 2 * |bs| == n then bs else bs[..|bs| - 1] + [Join(bs[|bs| - 1] / 16, 0)]
  }

  lemma PadAlreadyZero(bs: seq<byte>, n: nat)
    requires |bs| == PackedLen(n) && (n < 2 * |bs| ==> bs[|bs| - 1] % 16 == 0)
    ensures ZeroPadded(bs, n) == bs
  {
    if n < 2 * |bs| {
      var last := |bs| - 1;
      assert Join(bs[last] / 16, 0) == bs[last];
      assert bs == bs[..last] + [bs[last]];
    }
  }

  /** Packing the first n nibbles of a block of (n + 1) / 2 bytes gives the block back, up
      to the pad nibble, which becomes zero. */
  lemma PackUnpacked(bs: seq<byte>, n: nat)
    requires |bs| == PackedLen(n)
    ensures |Nibbles(bs)| >= n
    ensures Pack(Nibbles(bs)[..n]) == ZeroPadded(bs, n)
  {
    var ns := Nibbles(bs)[..n];
    forall j | 0 <= j < |bs| ensures PackAt(ns, j) == ZeroPadded(bs, n)[j] {
      assert ns[2 * j] == NibbleAt(bs, 2 * j) == bs[j] / 16;
      if 2 * j + 1 < n {
        assert ns[2 * j + 1] == NibbleAt(bs, 2 * j + 1) == bs[j] % 16;
      }
    }
  }

  // ---- hex digits ----

  predicate IsHex(c: char) {
    '0' <= c <= '9' || 'a' <= c <= 'f' || 'A' <= c <= 'F'
  }

  predicate IsUpper(c: char) {
    'A' <= c <= 'F'
  }

  // Anything that is not a hex digit counts as zero.
  function Value(c: char): Nibble {
    if '0' <= c <= '9' then c as int - '0' as int
    else if 'a' <= c <= 'f' then c as int - 'a' as int + 10
    else if 'A' <= c <= 'F' then c as int - 'A' as int + 10
    else 0
  }

  function Digit(n: Nibble): char {
    "0123456789abcdef"[n]
  }

  function Values(s: string): seq<Nibble> {
    seq(|s|, i requires 0 <= i < |s| => Value(s[i]))
  }

  function Digits(ns: seq<Nibble>): string {
    seq(|ns|, i requires 0 <= i < |ns| => Digit(ns[i]))
  }

  /** What decoding makes of an address: upper-case hex digits come back in lower case. */
  function Canonical(s: string): string {
    Digits(Values(s))
  }

  lemma ValueOfDigit(n: Nibble)
    ensures Value(Digit(n)) == n
  {
  }

  lemma CanonicalLower(s: string)
    requires forall c :: c in s ==> IsHex(c) && !IsUpper(c)
    ensures Canonical(s) == s
  {
    forall i | 0 <= i < |s| ensures Canonical(s)[i] == s[i] {
      assert IsHex(s[i]) && !IsUpper(s[i]);
      assert Digit(Value(s[i])) == s[i];
    }
  }

  // ---- parsing ----

  datatype CallError = WrongType | Empty | ShortAddresses | ShortFacilities

  datatype Result<+T> = Ok(value: T) | Err(error: CallError)

  datatype CallFields = CallFields(called: string, calling: string, facilities: seq<byte>, userData: seq<byte>)

  function AddressBytes(payload: seq<byte>): nat
    requires |payload| > 0
  {
    PackedLen(payload[0] % 16 + payload[0] / 16)
  }

  // The addresses of a block of called then calling nibbles.
  function SplitDigits(block: seq<byte>, calledLen: nat, callingLen: nat): (string, string)
    requires |block| == PackedLen(calledLen + callingLen)
  {
    var ns := Nibbles(block);
    (Digits(ns[..calledLen]), Digits(ns[calledLen..calledLen + callingLen]))
  }

  // Facilities behind their length byte, then user data; both may be missing altogether.
  function ParseTail(payload: seq<byte>, offset: nat): Result<(seq<byte>, seq<byte>)>
    requires offset <= |payload|
  {
    if |payload| == offset then Ok(([], []))
    else
      var f := payload[offset];
      if |payload| < offset + 1 + f then Err(ShortFacilities)
      else Ok((payload[offset + 1..offset + 1 + f], payload[offset + 1 + f..]))
  }

  /** ParseCallRequest and ParseCallConnected: the same layout behind two packet types. */
  function ParseCall(p: Packet, ptype: byte): Result<CallFields> {
    if p.ptype != ptype then Err(WrongType)
    else if p.payload == [] then Err(Empty)
    else
      var n := AddressBytes(p.payload);
      if |p.payload| < 1 + n then Err(ShortAddresses)
      else
        var (called, calling) := SplitDigits(p.payload[1..1 + n], p.payload[0] % 16, p.payload[0] / 16);
        match ParseTail(p.payload, 1 + n)
        case Err(e) => Err(e)
        case Ok((facilities, userData)) => Ok(CallFields(called, calling, facilities, userData))
  }

  lemma ReadNibble(data: seq<byte>, from: nat, at: nat)
    requires from <= at < 2 * |data|
    ensures Digits(Nibbles(data)[from..at + 1]) == Digits(Nibbles(data)[from..at]) + [Digit(NibbleAt(data, at))]
  {
    var ns := Nibbles(data);
    assert ns[from..at + 1] == ns[from..at] + [ns[at]];
  }

  // The decoding closure: length nibbles from startNibble, stopping at the end of the data.
  method Decode(data: seq<byte>, length: nat, startNibble: nat) returns (res: string)
    ensures var ns := Nibbles(data);
            var stop := if startNibble + length <= |ns| then startNibble + length else |ns|;
            res == if startNibble <= stop then Digits(ns[startNibble..stop]) else []
  {
    res := [];
    var nibble := startNibble;
    for i := 0 to length
      invariant nibble == startNibble + i && (i > 0 ==> nibble <= 2 * |data|)
      invariant res == if i == 0 then [] else Digits(Nibbles(data)[startNibble..nibble])
    {
      var byteIdx := nibble / 2;
      if byteIdx >= |data| {
        break;
      }
      var val := data[byteIdx];
      ReadNibble(data, startNibble, nibble);
      if nibble % 2 == 0 {
        res := res + [Digit(val / 16)];
      } else {
        res := res + [Digit(val % 16)];
      }
      nibble := nibble + 1;
    }
  }

  method ReadTail(payload: seq<byte>, start: nat) returns (r: Result<(seq<byte>, seq<byte>)>)
    requires start <= |payload|
    ensures r == ParseTail(payload, start)
  {
    var offset := start;
    if |payload| <= offset {
      return Ok(([], []));
    }
    var facLen: int := payload[offset];
    offset := offset + 1;
    if |payload| < offset + facLen {
      return Err(ShortFacilities);
    }
    var facilities := payload[offset..offset + facLen];
    offset := offset + facLen;
    var userData := [];
    if |payload| > offset {
      userData := payload[offset..];
    }
    assert userData == payload[offset..];
    return Ok((facilities, userData));
  }

  method ParseCallPacket(p: Packet, ptype: byte) returns (r: Result<CallFields>)
    ensures r == ParseCall(p, ptype)
  {
    if p.ptype != ptype {
      return Err(WrongType);
    }
    if |p.payload| < 1 {
      return Err(Empty);
    }
    var callingLen, calledLen := p.payload[0] / 16, p.payload[0] % 16;
    var totalAddrBytes := AddressBytes(p.payload);
    if |p.payload| < 1 + totalAddrBytes {
      return Err(ShortAddresses);
    }
    var called, calling := DecodeBoth(p.payload[1..1 + totalAddrBytes], calledLen, callingLen);
    var tail := ReadTail(p.payload, 1 + totalAddrBytes);
    return match tail
           case Err(e) => Err(e)
           case Ok((facilities, userData)) => Ok(CallFields(called, calling, facilities, userData));
  }

  method DecodeBoth(addrData: seq<byte>, calledLen: nat, callingLen: nat) returns (called: string, calling: string)
    requires |addrData| == PackedLen(calledLen + callingLen)
    ensures (called, calling) == SplitDigits(addrData, calledLen, callingLen)
  {
    called := Decode(addrData, calledLen, 0);
    calling := Decode(addrData, callingLen, calledLen);
  }

  // ---- encoding ----

  // Bitwise or.
  function Or(a: nat, b: nat): nat {
    if a == 0 then b
    else if b == 0 then a
    else 2 * Or(a / 2, b / 2) + if a % 2 == 1 || b % 2 == 1 then 1 else 0
  }

  lemma {:induction false} OrBelow(a: nat, b: nat, n: nat)
    requires n in [1, 2, 4, 8, 16] && a < n && b < n
    ensures Or(a, b) < n
  {
    if a != 0 && b != 0 {
      OrBelow(a / 2, b / 2, n / 2);
    }
  }

  function Or8(a: byte, b: byte): byte {
    OrBelow(a / 16, b / 16, 16);
    OrBelow(a % 16, b % 16, 16);
    Join(Or(a / 16, b / 16), Or(a % 16, b % 16))
  }

  lemma OrHalves(high: Nibble, low: Nibble)
    ensures Or8(Join(high, 0), low) == Join(high, low)
    ensures Or8(0, Join(high, 0)) == Join(high, 0)
  {
    JoinSplits(high, 0);
  }

  /** The payload both encoders aim at. */
  function CallPayload(c: CallFields): seq<byte>
    requires |c.called| <= 15 && |c.calling| <= 15 && |c.facilities| <= 255
  {
    [Join(|c.calling|, |c.called|)] + Pack(Values(c.called + c.calling))
    + [|c.facilities|] + c.facilities + c.userData
  }

  lemma ValuesConcat(a: string, b: string)
    ensures Values(a + b) == Values(a) + Values(b)
  {
  }

  lemma SplitPacked(called: string, calling: string)
    ensures |Pack(Values(called + calling))| == PackedLen(|called| + |calling|)
    ensures SplitDigits(Pack(Values(called + calling)), |called|, |calling|) == (Canonical(called), Canonical(calling))
  {
    var vs := Values(called + calling);
    UnpackPacked(vs);
    ValuesConcat(called, calling);
    var ns := Nibbles(Pack(vs));
    assert ns[..|called|] == ns[..|vs|][..|called|] == Values(called);
    assert ns[|called|..|called| + |calling|] == ns[..|vs|][|called|..] == Values(calling);
  }

  lemma Middle(pre: seq<byte>, mid: seq<byte>, post: seq<byte>)
    ensures (pre + mid + post)[|pre|..|pre| + |mid|] == mid
  {
  }

  // The slices of a payload, by the pieces it is concatenated from.
  lemma Layout(first: byte, block: seq<byte>, facLen: byte, fac: seq<byte>, user: seq<byte>)
    ensures var pay, n := [first] + block + [facLen] + fac + user, |block|;
            && |pay| == 2 + n + |fac| + |user|
            && pay[0] == first && pay[1..1 + n] == block && pay[1 + n] == facLen
            && pay[2 + n..2 + n + |fac|] == fac && pay[2 + n + |fac|..] == user
  {
    var head, tail := [first] + block + [facLen], fac + user;
    var pay := [first] + block + [facLen] + fac + user;
    assert pay == head + fac + user;
    Middle(head, fac, user);
    assert pay == [first] + block + ([facLen] + tail);
    Middle([first], block, [facLen] + tail);
  }

  // A payload put together from its pieces.
  function Assembled(a: Nibble, b: Nibble, block: seq<byte>, fac: seq<byte>, user: seq<byte>): seq<byte>
    requires |fac| <= 255
  {
    [Join(b, a)] + block + [|fac|] + fac + user
  }

  lemma AssembledTail(a: Nibble, b: Nibble, block: seq<byte>, fac: seq<byte>, user: seq<byte>)
    requires |fac| <= 255
    ensures var pay := Assembled(a, b, block, fac, user);
            1 + |block| <= |pay| && ParseTail(pay, 1 + |block|) == Ok((fac, user))
  {
    Layout(Join(b, a), block, |fac|, fac, user);
  }

  lemma AssembledAddresses(a: Nibble, b: Nibble, block: seq<byte>, fac: seq<byte>, user: seq<byte>)
    requires |fac| <= 255 && |block| == PackedLen(a + b)
    ensures var pay := Assembled(a, b, block, fac, user);
            && |pay| >= 1 + |block| && AddressBytes(pay) == |block| && pay[1..1 + |block|] == block
            && pay[0] % 16 == a && pay[0] / 16 == b
  {
    Layout(Join(b, a), block, |fac|, fac, user);
    JoinSplits(b, a);
  }

  /** It parses back into those pieces. */
  lemma AssembledParses(p: Packet, a: Nibble, b: Nibble, block: seq<byte>, fac: seq<byte>, user: seq<byte>)
    requires |fac| <= 255 && |block| == PackedLen(a + b) && p.payload == Assembled(a, b, block, fac, user)
    ensures var (called, calling) := SplitDigits(block, a, b);
            ParseCall(p, p.ptype) == Ok(CallFields(called, calling, fac, user))
  {
    AssembledAddresses(a, b, block, fac, user);
    AssembledTail(a, b, block, fac, user);
  }

  lemma PackLength(called: string, calling: string)
    ensures |Pack(Values(called + calling))| == PackedLen(|called| + |calling|)
  {
  }

  /** Address round trip: every pair of addresses of up to 15 digits, whatever their parity,
      comes back with the same facilities and user data. */
  lemma CallRoundTrip(c: CallFields, gfi: byte, lci: LciField, ptype: byte)
    requires |c.called| <= 15 && |c.calling| <= 15 && |c.facilities| <= 255
    ensures ParseCall(Packet(gfi, lci, ptype, CallPayload(c)), ptype) ==
            Ok(c.(called := Canonical(c.called), calling := Canonical(c.calling)))
  {
    PackLength(c.called, c.calling);
    SplitPacked(c.called, c.calling);
    AssembledParses(Packet(gfi, lci, ptype, CallPayload(c)), |c.called|, |c.calling|,
                    Pack(Values(c.called + c.calling)), c.facilities, c.userData);
  }

  /** Lower-case hex addresses, which are all that a parser ever delivers, come back as they
      were. */
  lemma LowerCaseRoundTrip(c: CallFields, gfi: byte, lci: LciField, ptype: byte)
    requires |c.called| <= 15 && |c.calling| <= 15 && |c.facilities| <= 255
    requires forall d :: d in c.called + c.calling ==> IsHex(d) && !IsUpper(d)
    ensures ParseCall(Packet(gfi, lci, ptype, CallPayload(c)), ptype) == Ok(c)
  {
    CallRoundTrip(c, gfi, lci, ptype);
    assert forall d :: d in c.called || d in c.calling ==> d in c.called + c.calling;
    CanonicalLower(c.called);
    CanonicalLower(c.calling);
  }

  // The digits of a block, put together again.
  function BlockDigits(block: seq<byte>, calledLen: nat, callingLen: nat): string
    requires |block| == PackedLen(calledLen + callingLen)
  {
    var (called, calling) := SplitDigits(block, calledLen, callingLen);
    called + calling
  }

  lemma ReadBack(block: seq<byte>, calledLen: nat, callingLen: nat)
    requires |block| == PackedLen(calledLen + callingLen)
    ensures |Values(BlockDigits(block, calledLen, callingLen))| == calledLen + callingLen
    ensures Values(BlockDigits(block, calledLen, callingLen)) <= Nibbles(block)
  {
    var vs := Values(BlockDigits(block, calledLen, callingLen));
    forall i | 0 <= i < calledLen + callingLen ensures vs[i] == Nibbles(block)[i] {
      ValueOfDigit(Nibbles(block)[i]);
    }
  }

  /** Re-encoding a parsed address block reproduces it, up to the pad nibble. */
  lemma ReencodeAddresses(block: seq<byte>, calledLen: nat, callingLen: nat)
    requires |block| == PackedLen(calledLen + callingLen)
    ensures Pack(Values(BlockDigits(block, calledLen, callingLen))) == ZeroPadded(block, calledLen + callingLen)
  {
    ReadBack(block, calledLen, callingLen);
    PackPrefix(Values(BlockDigits(block, calledLen, callingLen)), block, calledLen + callingLen);
  }

  lemma PackPrefix(ns: seq<Nibble>, bs: seq<byte>, n: nat)
    requires |bs| == PackedLen(n) && |ns| == n && ns <= Nibbles(bs)
    ensures Pack(ns) == ZeroPadded(bs, n)
  {
    PackUnpacked(bs, n);
    assert ns == Nibbles(bs)[..n];
  }

  // Or-ing a digit into an empty half-byte changes that nibble only.
  lemma OrNibble(bs: seq<byte>, i: nat, v: Nibble)
    requires i < 2 * |bs| && NibbleAt(bs, i) == 0 && (i % 2 == 0 ==> NibbleAt(bs, i + 1) == 0)
    ensures var b := Or8(bs[i / 2], if i % 2 == 0 then Join(v, 0) else v);
            Nibbles(bs[i / 2 := b]) == Nibbles(bs)[i := v]
  {
    var j := i / 2;
    var b := OrDigit(bs[j], i % 2 == 0, v);
    var bs' := bs[j := b];
    forall k | 0 <= k < 2 * |bs| ensures NibbleAt(bs', k) == if k == i then v else NibbleAt(bs, k) {
    }
  }

  lemma OrDigit(was: byte, high: bool, v: Nibble) returns (b: byte)
    requires if high then was == 0 else was % 16 == 0
    ensures b == Or8(was, if high then Join(v, 0) else v)
    ensures b / 16 == (if high then v else was / 16) && b % 16 == (if high then 0 else v)
  {
    b := Or8(was, if high then Join(v, 0) else v);
    OrHalves(v, 0);
    OrHalves(was / 16, v);
    JoinSplits(v, 0);
    JoinSplits(was / 16, v);
    assert was == Join(was / 16, was % 16);
  }

  function Zeros(n: nat): seq<Nibble> {
    seq(n, _ => 0)
  }

  /** One address digit after another into a zeroed buffer, or-ing each half-byte in: the
      encoding closure of InjectFacilities. */
  method EncodeInto(addrData: array<byte>, addr: string, startNibble: nat, ghost before: seq<Nibble>)
    requires startNibble + |addr| <= 2 * addrData.Length && |before| == startNibble
    requires Nibbles(addrData[..]) == before + Zeros(2 * addrData.Length - startNibble)
    modifies addrData
    ensures Nibbles(addrData[..]) ==
            before + Values(addr) + Zeros(2 * addrData.Length - startNibble - |addr|)
  {
    var nibble := startNibble;
    assert Values(addr[..0]) == [];
    for k := 0 to |addr|
      invariant nibble == startNibble + k
      invariant Nibbles(addrData[..]) == before + Values(addr[..k]) + Zeros(2 * addrData.Length - nibble)
    {
      var val := Value(addr[k]);
      OrInto(addrData, nibble, val);
      StoreDigit(before, Values(addr[..k]), 2 * addrData.Length - nibble, val);
      assert addr[..k + 1] == addr[..k] + [addr[k]];
      assert Values(addr[..k + 1]) == Values(addr[..k]) + [val];
      nibble := nibble + 1;
    }
    assert addr[..|addr|] == addr;
  }

  method OrInto(addrData: array<byte>, nibble: nat, val: Nibble)
    requires nibble < 2 * addrData.Length
    requires forall i :: nibble <= i < 2 * addrData.Length ==> Nibbles(addrData[..])[i] == 0
    modifies addrData
    ensures Nibbles(addrData[..]) == Nibbles(old(addrData[..]))[nibble := val]
  {
    var byteIdx := nibble / 2;
    ghost var bs := addrData[..];
    assert NibbleAt(bs, nibble) == Nibbles(bs)[nibble] == 0;
    if nibble % 2 == 0 {
      assert NibbleAt(bs, nibble + 1) == Nibbles(bs)[nibble + 1] == 0;
      addrData[byteIdx] := Or8(addrData[byteIdx], Join(val, 0));
    } else {
      addrData[byteIdx] := Or8(addrData[byteIdx], val);
    }
    OrNibble(bs, nibble, val);
    assert addrData[..] == bs[byteIdx := addrData[byteIdx]];
  }

  lemma StoreDigit(before: seq<Nibble>, mid: seq<Nibble>, rest: nat, v: Nibble)
    requires rest > 0
    ensures (before + mid + Zeros(rest))[|before| + |mid| := v] == before + (mid + [v]) + Zeros(rest - 1)
  {
  }

  method EncodeAddresses(called: string, calling: string) returns (addrData: array<byte>)
    ensures fresh(addrData) && addrData[..] == Pack(Values(called + calling))
  {
    var n := PackedLen(|called| + |calling|);
    addrData := new byte[n](_ => 0);
    assert Nibbles(addrData[..]) == [] + Zeros(2 * n);
    EncodeInto(addrData, called, 0, []);
    assert [] + Values(called) == Values(called);
    EncodeInto(addrData, calling, |called|, Values(called));
    ValuesConcat(called, calling);
    PackFilled(addrData[..], Values(called + calling));
  }

  lemma PackFilled(bs: seq<byte>, ns: seq<Nibble>)
    requires |bs| == PackedLen(|ns|) && Nibbles(bs) == ns + Zeros(2 * |bs| - |ns|)
    ensures bs == Pack(ns)
  {
    PackPrefix(ns, bs, |ns|);
    if |ns| < 2 * |bs| {
      LastNibble(bs);
    }
    PadAlreadyZero(bs, |ns|);
  }

  lemma LastNibble(bs: seq<byte>)
    requires bs != []
    ensures bs[|bs| - 1] % 16 == Nibbles(bs)[2 * |bs| - 1]
  {
    assert Nibbles(bs)[2 * |bs| - 1] == NibbleAt(bs, 2 * |bs| - 1);
  }

  /** EncodeBCD packs a single address. */
  method EncodeBCD(addr: string) returns (res: array<byte>)
    ensures fresh(res) && res[..] == Pack(Values(addr))
    ensures Digits(Nibbles(res[..])[..|addr|]) == Canonical(addr)
  {
    res := new byte[PackedLen(|addr|)](_ => 0);
    assert Nibbles(res[..]) == [] + Zeros(2 * res.Length);
    EncodeInto(res, addr, 0, []);
    assert [] + Values(addr) == Values(addr);
    PackFilled(res[..], Values(addr));
    assert Nibbles(res[..])[..|addr|] == Values(addr);
  }
}

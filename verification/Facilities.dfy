/** Facility lists (ITU-T X.25, section 7.1) and their rewriting: parse into a map, override
    from the configuration, re-encode in whatever order the map delivers. */
module Facilities {
  import opened Wire
  import opened CallRequest

  type FacMap = map<byte, seq<byte>>

  // Class A to D from the top two bits of the code; class D carries a length byte.
  function Class(code: byte): nat {
    code / 64
  }

  predicate WellSized(code: byte, val: seq<byte>) {
    if Class(code) < 3 then |val| == Class(code) + 1 else |val| <= 255
  }

  // Position and length of the value that starts the list, if the list holds all of it.
  function Head(fac: seq<byte>): (r: Option<(nat, nat)>)
    ensures r.Some? ==> 1 <= r.value.0 && r.value.0 + r.value.1 <= |fac|
    ensures r.Some? ==> WellSized(fac[0], fac[r.value.0..r.value.0 + r.value.1])
  {
    if fac == [] then None
    else if Class(fac[0]) < 3 then
      if |fac| < 2 + Class(fac[0]) then None else Some((1, Class(fac[0]) + 1))
    else if |fac| < 2 || |fac| < 2 + fac[1] as int then None
    else Some((2, fac[1]))
  }

  /** The map a facility list stands for: a repeated code keeps its last value, and a
      truncated entry ends the list. */
  function DecodeOnto(m: FacMap, fac: seq<byte>): FacMap
    decreases |fac|
  {
    match Head(fac)
    case None => m
    case Some((at, len)) => DecodeOnto(m[fac[0] := fac[at..at + len]], fac[at + len..])
  }

  function Decoded(fac: seq<byte>): FacMap {
    DecodeOnto(map[], fac)
  }

  function Entry(code: byte, val: seq<byte>): seq<byte> {
    if Class(code) == 3 then [code, |val| % 256] + val else [code] + val
  }

  function Encode(m: FacMap, order: seq<byte>): seq<byte>
    requires forall c :: c in order ==> c in m
  {
    if order == [] then [] else Entry(order[0], m[order[0]]) + Encode(m, order[1..])
  }

  ghost predicate Distinct(order: seq<byte>) {
    forall i, j :: 0 <= i < j < |order| ==> order[i] != order[j]
  }

  lemma DistinctRest(order: seq<byte>)
    requires order != [] && Distinct(order)
    ensures Distinct(order[1..]) && order[0] !in order[1..]
    ensures forall c :: c in order <==> c == order[0] || c in order[1..]
  {
    assert order == [order[0]] + order[1..];
  }

  ghost predicate Enumerates(order: seq<byte>, m: FacMap) {
    Distinct(order) && forall c :: c in order <==> c in m
  }

  ghost predicate AllSized(m: FacMap) {
    forall c :: c in m ==> WellSized(c, m[c])
  }

  lemma {:induction false} DecodedIsSized(m: FacMap, fac: seq<byte>)
    requires AllSized(m)
    ensures AllSized(DecodeOnto(m, fac))
    decreases |fac|
  {
    if Head(fac).Some? {
      var (at, len) := Head(fac).value;
      DecodedIsSized(m[fac[0] := fac[at..at + len]], fac[at + len..]);
    }
  }

  lemma HeadOfEntry(code: byte, val: seq<byte>, rest: seq<byte>)
    requires WellSized(code, val)
    ensures var fac := Entry(code, val) + rest;
            var h := Head(fac);
            h.Some? && fac[0] == code && fac[h.value.0..h.value.0 + h.value.1] == val
            && fac[h.value.0 + h.value.1..] == rest
  {
    var fac := Entry(code, val) + rest;
    var skip := if Class(code) == 3 then 2 else 1;
    assert fac[skip..skip + |val|] == val;
    assert fac[skip + |val|..] == rest;
  }

  lemma DecodeStep(onto: FacMap, code: byte, val: seq<byte>, rest: seq<byte>)
    requires WellSized(code, val)
    ensures DecodeOnto(onto, Entry(code, val) + rest) == DecodeOnto(onto[code := val], rest)
  {
    HeadOfEntry(code, val, rest);
  }

  lemma {:induction false} DecodeEncoded(m: FacMap, order: seq<byte>, onto: FacMap, c: byte)
    requires Distinct(order) && forall c :: c in order ==> c in m && WellSized(c, m[c])
    ensures var r := DecodeOnto(onto, Encode(m, order));
            && (c in r <==> c in order || c in onto)
            && (c in order ==> r[c] == m[c])
            && (c !in order && c in onto ==> r[c] == onto[c])
    decreases |order|
  {
    if order != [] {
      var c0, rest := order[0], order[1..];
      DistinctRest(order);
      DecodeStep(onto, c0, m[c0], Encode(m, rest));
      DecodeEncoded(m, rest, onto[c0 := m[c0]], c);
    }
  }

  /** Whatever order the map is iterated in, re-encoding it gives a list that stands for it. */
  lemma AnyOrderDecodes(m: FacMap, order: seq<byte>)
    requires AllSized(m) && Enumerates(order, m)
    ensures Decoded(Encode(m, order)) == m
  {
    var r := Decoded(Encode(m, order));
    forall c: byte ensures (c in r <==> c in m) && (c in m ==> r[c] == m[c]) {
      DecodeEncoded(m, order, map[], c);
    }
  }

  // ---- configured overrides, as hex strings ----

  function HexDecode(s: string): Option<seq<byte>> {
    if |s| % 2 == 1 || exists c :: c in s && !IsHex(c) then None
    else Some(Pack(Values(s)))
  }

  type Override = (string, string)

  // The code and value an override stands for; anything undecodable is skipped.
  function Parsed(o: Override): Option<(byte, seq<byte>)> {
    match (HexDecode(o.0), HexDecode(o.1))
    case (Some(code), Some(val)) => if |code| == 1 then Some((code[0], val)) else None
    case _ => None
  }

  function Overridden(m: FacMap, os: seq<Override>): FacMap {
    if os == [] then m
    else
      var rest := Overridden(m, os[..|os| - 1]);
      match Parsed(os[|os| - 1])
      case Some((code, val)) => rest[code := val]
      case None => rest
  }

  predicate Names(o: Override, code: byte) {
    Parsed(o).Some? && Parsed(o).value.0 == code
  }

  // Two spellings of one code carry the same value.
  ghost predicate Agreeing(os: seq<Override>) {
    forall a, b, c :: a in os && b in os && Names(a, c) && Names(b, c) ==> Parsed(a) == Parsed(b)
  }

  lemma {:induction false} NotOverridden(m: FacMap, os: seq<Override>, c: byte)
    requires forall o :: o in os ==> !Names(o, c)
    ensures c in Overridden(m, os) <==> c in m
    ensures c in m ==> Overridden(m, os)[c] == m[c]
  {
    if os != [] {
      var init, last := os[..|os| - 1], os[|os| - 1];
      assert !Names(last, c);
      NotOverridden(m, init, c);
    }
  }

  lemma {:induction false} OverriddenBy(m: FacMap, os: seq<Override>, c: byte, o: Override)
    requires Agreeing(os) && o in os && Names(o, c)
    ensures c in Overridden(m, os) && Overridden(m, os)[c] == Parsed(o).value.1
  {
    var init, last := os[..|os| - 1], os[|os| - 1];
    assert os == init + [last];
    if Names(last, c) {
      assert last in os && Parsed(last) == Parsed(o);
    } else {
      assert o in init;
      OverriddenBy(m, init, c, o);
    }
  }

  /** The configured map may be iterated in any order: only the set of overrides counts. */
  lemma OverrideOrderIrrelevant(m: FacMap, os: seq<Override>, os': seq<Override>)
    requires Agreeing(os) && forall o :: o in os <==> o in os'
    ensures Overridden(m, os) == Overridden(m, os')
  {
    var r, r' := Overridden(m, os), Overridden(m, os');
    forall c: byte ensures (c in r <==> c in r') && (c in r ==> r[c] == r'[c]) {
      if o :| o in os && Names(o, c) {
        OverriddenBy(m, os, c, o);
        OverriddenBy(m, os', c, o);
      } else {
        NotOverridden(m, os, c);
        NotOverridden(m, os', c);
      }
    }
  }

  predicate SizedOverride(o: Override) {
    Parsed(o).Some? ==> WellSized(Parsed(o).value.0, Parsed(o).value.1)
  }

  // Class length for classes A to C; nothing is asked of class D.
  predicate ClassSized(code: byte, val: seq<byte>) {
    Class(code) < 3 ==> |val| == Class(code) + 1
  }

  ghost predicate AllClassSized(m: FacMap) {
    forall c :: c in m ==> ClassSized(c, m[c])
  }

  predicate ClassSizedOverride(o: Override) {
    Parsed(o).Some? ==> ClassSized(Parsed(o).value.0, Parsed(o).value.1)
  }

  lemma {:induction false} OverriddenIsClassSized(m: FacMap, os: seq<Override>)
    requires AllClassSized(m) && forall o :: o in os ==> ClassSizedOverride(o)
    ensures AllClassSized(Overridden(m, os))
  {
    if os != [] {
      assert ClassSizedOverride(os[|os| - 1]);
      OverriddenIsClassSized(m, os[..|os| - 1]);
    }
  }

  lemma {:induction false} ValueWithinList(m: FacMap, order: seq<byte>, c: byte)
    requires c in order && forall c :: c in order ==> c in m
    ensures |m[c]| < |Encode(m, order)|
  {
    if c != order[0] {
      ValueWithinList(m, order[1..], c);
    }
  }

  /** A list that fits its length byte has no value too long for its own. */
  lemma ShortListIsSized(m: FacMap, order: seq<byte>)
    requires AllClassSized(m) && Enumerates(order, m) && |Encode(m, order)| <= 255
    ensures AllSized(m)
  {
    forall c | c in m ensures WellSized(c, m[c]) {
      ValueWithinList(m, order, c);
    }
  }

  // ---- the rewritten packet ----

  // The length byte is truncated; that is where the 255-byte limit comes from.
  function Rebuilt(c: CallFields, enc: seq<byte>): seq<byte>
    requires |c.called| <= 15 && |c.calling| <= 15
  {
    [Join(|c.calling|, |c.called|)] + Pack(Values(c.called + c.calling)) + [|enc| % 256] + enc + c.userData
  }

  lemma DigitsAreCanonical(ns: seq<Nibble>)
    ensures Canonical(Digits(ns)) == Digits(ns)
  {
    forall i | 0 <= i < |ns| ensures Digit(Value(Digits(ns)[i])) == Digits(ns)[i] {
      ValueOfDigit(ns[i]);
    }
  }

  lemma SplitIsCanonical(block: seq<byte>, a: Nibble, b: Nibble)
    requires |block| == PackedLen(a + b)
    ensures var (called, calling) := SplitDigits(block, a, b);
            && |called| <= 15 && |calling| <= 15 && Canonical(called) == called && Canonical(calling) == calling
  {
    var ns := Nibbles(block);
    DigitsAreCanonical(ns[..a]);
    DigitsAreCanonical(ns[a..a + b]);
  }

  lemma ParsedIsCanonical(p: Packet)
    requires ParseCall(p, CALL_REQUEST).Ok?
    ensures var c := ParseCall(p, CALL_REQUEST).value;
            |c.called| <= 15 && |c.calling| <= 15 && Canonical(c.called) == c.called && Canonical(c.calling) == c.calling
  {
    SplitIsCanonical(p.payload[1..1 + AddressBytes(p.payload)], p.payload[0] % 16, p.payload[0] / 16);
  }

  // A list too long for its length byte spills into the user data.
  lemma LongListSpills(p: Packet, c: CallFields, enc: seq<byte>)
    requires |c.called| <= 15 && |c.calling| <= 15 && |enc| > 255 && p.ptype == CALL_REQUEST
    ensures var r := ParseCall(p.(payload := Rebuilt(c, enc)), CALL_REQUEST);
            r.Ok? ==> |r.value.userData| > |c.userData|
  {
    RebuiltLayout(c, enc);
    TailSpills(Rebuilt(c, enc), AddressBytes(Rebuilt(c, enc)), enc, c.userData);
  }

  lemma RebuiltLayout(c: CallFields, enc: seq<byte>)
    requires |c.called| <= 15 && |c.calling| <= 15
    ensures var pay := Rebuilt(c, enc);
            && |pay| == 2 + AddressBytes(pay) + |enc| + |c.userData|
            && pay[1 + AddressBytes(pay)] == |enc| % 256
  {
    Layout(Join(|c.calling|, |c.called|), Pack(Values(c.called + c.calling)), |enc| % 256, enc, c.userData);
    JoinSplits(|c.calling|, |c.called|);
    PackLength(c.called, c.calling);
  }

  lemma TailSpills(pay: seq<byte>, n: nat, enc: seq<byte>, user: seq<byte>)
    requires |pay| == 2 + n + |enc| + |user| && pay[1 + n] == |enc| % 256 && |enc| > 255
    ensures var r := ParseTail(pay, 1 + n); r.Ok? && |r.value.1| > |user|
  {
  }

  lemma ShortListParses(p: Packet, c: CallFields, enc: seq<byte>)
    requires ParseCall(p, CALL_REQUEST) == Ok(c) && |enc| <= 255
    ensures |c.called| <= 15 && |c.calling| <= 15
    ensures ParseCall(p.(payload := Rebuilt(c, enc)), CALL_REQUEST) == Ok(c.(facilities := enc))
  {
    ParsedIsCanonical(p);
    assert Rebuilt(c, enc) == CallPayload(c.(facilities := enc));
    CallRoundTrip(c.(facilities := enc), p.gfi, p.lci, CALL_REQUEST);
  }

  // The facilities InjectFacilities aims at.
  function Target(c: CallFields, os: seq<Override>): FacMap {
    Overridden(Decoded(c.facilities), os)
  }

  // What the packet becomes under one iteration order of the target map.
  function Injected(p: Packet, c: CallFields, os: seq<Override>, order: seq<byte>): Packet
    requires |c.called| <= 15 && |c.calling| <= 15
    requires forall code :: code in order ==> code in Target(c, os)
  {
    p.(payload := Rebuilt(c, Encode(Target(c, os), order)))
  }

  /** InjectFacilities changes only the facilities, for every iteration order of either map:
      re-parsing gives the same called and calling addresses and user data, and facilities
      standing for the old ones overridden by the configured ones. This holds exactly when
      the re-encoded list fits the one-byte length field. */
  lemma InjectionIff(p: Packet, c: CallFields, os: seq<Override>, order: seq<byte>)
    requires ParseCall(p, CALL_REQUEST) == Ok(c)
    requires forall o :: o in os ==> ClassSizedOverride(o)
    requires Enumerates(order, Target(c, os))
    ensures |c.called| <= 15 && |c.calling| <= 15
    ensures var r := ParseCall(Injected(p, c, os, order), CALL_REQUEST);
            && (r.Ok? && r.value.called == c.called && r.value.calling == c.calling
                && r.value.userData == c.userData && Decoded(r.value.facilities) == Target(c, os)
                <==> |Encode(Target(c, os), order)| <= 255)
  {
    ParsedIsCanonical(p);
    var enc := Encode(Target(c, os), order);
    if |enc| <= 255 {
      ShortListParses(p, c, enc);
      DecodedIsSized(map[], c.facilities);
      OverriddenIsClassSized(Decoded(c.facilities), os);
      ShortListIsSized(Target(c, os), order);
      AnyOrderDecodes(Target(c, os), order);
    } else {
      LongListSpills(p, c, enc);
    }
  }

  function Zeroes(n: nat): string {
    seq(n, _ => '0')
  }

  lemma ZeroBytes(n: nat)
    ensures var r := HexDecode(Zeroes(2 * n)); r.Some? && r.value == seq(n, _ => 0)
  {
    var ns := Values(Zeroes(2 * n));
    forall j | 0 <= j < n ensures Pack(ns)[j] == 0 {
      assert Pack(ns)[j] == PackAt(ns, j) && ns[2 * j] == Value('0') && ns[2 * j + 1] == Value('0');
    }
    assert |Pack(ns)| == n;
  }

  /** A failing input: a call request without addresses, and one class D override of 254
      bytes, which every check accepts. The list is 256 bytes long, its length byte is zero,
      and the whole of it arrives as user data. */
  lemma InjectionOverflows() returns (p: Packet, c: CallFields, o: Override, order: seq<byte>)
    ensures ParseCall(p, CALL_REQUEST) == Ok(c) && c == CallFields("", "", [], [])
    ensures SizedOverride(o) && Parsed(o).Some? && Enumerates(order, Target(c, [o]))
    ensures var enc := Encode(Target(c, [o]), order);
            && |enc| == 256 && Target(c, [o]) != map[]
            && ParseCall(Injected(p, c, [o], order), CALL_REQUEST) == Ok(CallFields("", "", [], enc))
  {
    p, c, o, order := Packet(1, 1, CALL_REQUEST, [0]), CallFields("", "", [], []), ("C1", Zeroes(508)), [0xC1];
    ZeroBytes(254);
    var val: seq<byte> := seq(254, _ => 0);
    assert Parsed(o) == Some((0xC1, val)) by {
      var ns := Values("C1");
      assert ns == [12, 1];
      assert Pack(ns)[0] == PackAt(ns, 0) == 0xC1 && |Pack(ns)| == 1;
      assert Pack(ns) == [0xC1];
      assert HexDecode("C1") == Some([0xC1]);
    }
    SingleOverride(o, 0xC1, val);
    var enc := Encode(Target(c, [o]), order);
    EncodeAppend(Target(c, [o]), [], 0xC1);
    assert [] + [0xC1] == order;
    assert enc == Entry(0xC1, val);
    NoAddresses(p, c);
    SpilledList(p, c, enc);
  }

  lemma SingleOverride(o: Override, code: byte, val: seq<byte>)
    requires Parsed(o) == Some((code, val))
    ensures Overridden(Decoded([]), [o]) == map[code := val]
  {
    assert [o][..0] == [];
    assert Overridden(map[], [o][..0]) == map[];
  }

  lemma EmptySplit()
    ensures SplitDigits([], 0, 0) == ("", "")
  {
  }

  lemma NoAddresses(p: Packet, c: CallFields)
    requires p.ptype == CALL_REQUEST && p.payload == [0] && c == CallFields("", "", [], [])
    ensures ParseCall(p, CALL_REQUEST) == Ok(c)
  {
    assert AddressBytes(p.payload) == 0;
    assert p.payload[1..1] == [];
    EmptySplit();
  }

  lemma SpilledList(p: Packet, c: CallFields, enc: seq<byte>)
    requires p.gfi == p.lci == 1 && p.ptype == CALL_REQUEST && c == CallFields("", "", [], []) && |enc| == 256
    ensures ParseCall(p.(payload := Rebuilt(c, enc)), CALL_REQUEST) == Ok(CallFields("", "", [], enc))
  {
    var pay := Rebuilt(c, enc);
    assert pay == [0, 0] + enc;
    ZeroHeader(pay, enc);
  }

  lemma ZeroHeader(pay: seq<byte>, user: seq<byte>)
    requires pay == [0, 0] + user
    ensures ParseCall(Packet(1, 1, CALL_REQUEST, pay), CALL_REQUEST) == Ok(CallFields("", "", [], user))
  {
    assert AddressBytes(pay) == 0;
    assert pay[1..1] == [] && pay[2..2] == [] && pay[2..] == user;
    EmptySplit();
  }

  // ---- the packet object ----

  class X25Packet {
    const gfi: byte
    const lci: LciField
    const ptype: byte
    var payload: seq<byte>

    constructor (p: Packet)
      ensures View() == p
    {
      gfi, lci, ptype, payload := p.gfi, p.lci, p.ptype, p.payload;
    }

    function View(): Packet
      reads this
    {
      Packet(gfi, lci, ptype, payload)
    }

    /** Rewrites the payload in place. The overrides arrive in the iteration order of the
        configured map; the re-encoding order is chosen freely and reported. */
    method InjectFacilities(os: seq<Override>) returns (err: Option<CallError>, ghost order: seq<byte>)
      modifies this
      ensures var r := ParseCall(old(View()), CALL_REQUEST);
              if r.Err? then err == Some(r.error) && View() == old(View())
              else err == None && |r.value.called| <= 15 && |r.value.calling| <= 15
                   && Enumerates(order, Target(r.value, os)) && View() == Injected(old(View()), r.value, os, order)
    {
      order := [];
      var r := ParseCallPacket(View(), CALL_REQUEST);
      if r.Err? {
        return Some(r.error), order;
      }
      var c := r.value;
      ParsedIsCanonical(View());
      var facMap := ReadFacilities(c.facilities);
      facMap := ApplyOverrides(facMap, os);
      var encoded;
      encoded, order := WriteFacilities(facMap);
      payload := Rebuild(c, encoded);
      return None, order;
    }
  }

  method Rebuild(c: CallFields, encoded: seq<byte>) returns (payload: seq<byte>)
    requires |c.called| <= 15 && |c.calling| <= 15
    ensures payload == Rebuilt(c, encoded)
  {
    var addrData := EncodeAddresses(c.called, c.calling);
    payload := [Join(|c.calling|, |c.called|)] + addrData[..] + [|encoded| % 256] + encoded + c.userData;
  }

  // One entry further through the list.
  lemma DecodeAt(m: FacMap, fac: seq<byte>, i: nat, at: nat, len: nat)
    requires i < at && at + len <= |fac| && Head(fac[i..]) == Some((at - i, len))
    ensures DecodeOnto(m, fac[i..]) == DecodeOnto(m[fac[i] := fac[at..at + len]], fac[at + len..])
  {
    var rest := fac[i..];
    assert rest[at - i..at - i + len] == fac[at..at + len];
    assert rest[at - i + len..] == fac[at + len..];
  }

  // Where the value of the entry at i lies, if the list holds all of it.
  method ValueAt(fac: seq<byte>, i: nat) returns (r: Option<(nat, nat)>)
    requires i < |fac|
    ensures r == match Head(fac[i..])
                 case None => None
                 case Some((at, len)) => Some((i + at, len))
  {
    var valLen: int;
    var at := i + 1;
    match Class(fac[i]) {
      case 0 => valLen := 1;
      case 1 => valLen := 2;
      case 2 => valLen := 3;
      case _ =>
        if i + 1 >= |fac| {
          return None;
        }
        valLen := fac[i + 1];
        at := i + 2;
    }
    if at + valLen > |fac| {
      return None;
    }
    return Some((at, valLen));
  }

  // The scan over the list; a code without its full value ends it.
  method ReadFacilities(fac: seq<byte>) returns (facMap: FacMap)
    ensures facMap == Decoded(fac)
  {
    facMap := map[];
    var i := 0;
    while i < |fac|
      invariant 0 <= i <= |fac|
      invariant Decoded(fac) == DecodeOnto(facMap, fac[i..])
    {
      var code := fac[i];
      var value := ValueAt(fac, i);
      if value.None? {
        break;
      }
      var (at, valLen) := value.value;
      DecodeAt(facMap, fac, i, at, valLen);
      facMap := facMap[code := fac[at..at + valLen]];
      i := at + valLen;
    }
  }

  method ApplyOverrides(start: FacMap, os: seq<Override>) returns (facMap: FacMap)
    ensures facMap == Overridden(start, os)
  {
    facMap := start;
    for i := 0 to |os|
      invariant facMap == Overridden(start, os[..i])
    {
      assert os[..i + 1][..i] == os[..i];
      match Parsed(os[i]) {
        case Some((code, val)) => facMap := facMap[code := val];
        case None =>
      }
    }
    assert os[..|os|] == os;
  }

  // order lists the keys outside todo, each once.
  ghost predicate Done(order: seq<byte>, facMap: FacMap, todo: set<byte>) {
    Distinct(order) && forall c :: c in order <==> c in facMap && c !in todo
  }

  lemma DoneNext(order: seq<byte>, facMap: FacMap, todo: set<byte>, code: byte)
    requires Done(order, facMap, todo) && code in todo && todo <= facMap.Keys
    ensures Done(order + [code], facMap, todo - {code})
  {
    assert code !in order;
    assert forall c :: c in order + [code] <==> c in order || c == code;
  }

  method WriteFacilities(facMap: FacMap) returns (encoded: seq<byte>, ghost order: seq<byte>)
    ensures Enumerates(order, facMap) && encoded == Encode(facMap, order)
    ensures AllSized(facMap) ==> Decoded(encoded) == facMap
  {
    encoded, order := [], [];
    var todo := facMap.Keys;
    while todo != {}
      invariant todo <= facMap.Keys && Done(order, facMap, todo)
      invariant encoded == Encode(facMap, order)
      decreases todo
    {
      var code :| code in todo;
      EncodeAppend(facMap, order, code);
      DoneNext(order, facMap, todo, code);
      encoded := AppendEntry(encoded, code, facMap[code]);
      todo, order := todo - {code}, order + [code];
    }
    if AllSized(facMap) {
      AnyOrderDecodes(facMap, order);
    }
  }

  method AppendEntry(encoded: seq<byte>, code: byte, val: seq<byte>) returns (r: seq<byte>)
    ensures r == encoded + Entry(code, val)
  {
    r := encoded + [code];
    if Class(code) == 3 {
      r := r + [|val| % 256];
    }
    r := r + val;
  }

  lemma {:induction false} EncodeAppend(m: FacMap, order: seq<byte>, code: byte)
    requires code in m && forall c :: c in order ==> c in m
    ensures Encode(m, order + [code]) == Encode(m, order) + Entry(code, m[code])
  {
    if order != [] {
      assert (order + [code])[1..] == order[1..] + [code];
      EncodeAppend(m, order[1..], code);
    }
  }
}

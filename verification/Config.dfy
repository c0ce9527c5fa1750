/** The parts of configuration loading that later code relies on: the LCI range and the
    per-destination facility overrides. */
module Config {
  import opened Wire
  import opened CallRequest
  import opened Facilities

  const LCI_START_DEFAULT := 1024
  const LCI_END_DEFAULT := 2048

  /** Whatever the file says, the allocators get a range of at least two usable LCIs, and a
      usable configured range is taken as it is. */
  method ClampRange(start: int, end: int) returns (lciStart: int, lciEnd: int)
    ensures LCI_MIN <= lciStart < lciEnd <= LCI_MAX
    ensures LCI_MIN <= start < end <= LCI_MAX ==> lciStart == start && lciEnd == end
    ensures var s := if start == 0 then LCI_START_DEFAULT else if start < LCI_MIN then LCI_MIN else start;
            var e := if end == 0 then LCI_END_DEFAULT else if end > LCI_MAX then LCI_MAX else end;
            (lciStart, lciEnd) == if s < e then (s, e) else (LCI_START_DEFAULT, LCI_END_DEFAULT)
  {
    lciStart, lciEnd := start, end;
    if lciStart == 0 {
      lciStart := LCI_START_DEFAULT;
    }
    if lciEnd == 0 {
      lciEnd := LCI_END_DEFAULT;
    }
    if lciStart < LCI_MIN {
      lciStart := LCI_MIN;
    }
    if lciEnd > LCI_MAX {
      lciEnd := LCI_MAX;
    }
    if lciStart >= lciEnd {
      lciStart, lciEnd := LCI_START_DEFAULT, LCI_END_DEFAULT;
    }
  }

  // Decodable, and of class length unless its class has none.
  predicate Acceptable(o: Override) {
    Parsed(o).Some? && (Class(Parsed(o).value.0) < 3 ==> |Parsed(o).value.1| == Class(Parsed(o).value.0) + 1)
  }

  type FacConfig = map<string, string>

  function Kept(facs: FacConfig): FacConfig {
    map k | k in facs && Acceptable((k, facs[k])) :: facs[k]
  }

  // The kept overrides of the destinations outside todo that have any.
  function KeptOutside(dests: map<string, FacConfig>, todo: set<string>): map<string, FacConfig> {
    map a | a in dests && a !in todo && Kept(dests[a]) != map[] :: Kept(dests[a])
  }

  lemma KeptOneMore(dests: map<string, FacConfig>, todo: set<string>, addr: string)
    requires addr in todo && addr in dests
    ensures var valid, kept := KeptOutside(dests, todo), Kept(dests[addr]);
            KeptOutside(dests, todo - {addr}) == if kept == map[] then valid else valid[addr := kept]
  {
  }

  /** Keeps exactly the acceptable overrides, and only destinations that still have one. */
  method ValidateDestinations(dests: map<string, FacConfig>) returns (valid: map<string, FacConfig>)
    ensures valid == map a | a in dests && Kept(dests[a]) != map[] :: Kept(dests[a])
  {
    valid := map[];
    var todo := dests.Keys;
    while todo != {}
      invariant todo <= dests.Keys && valid == KeptOutside(dests, todo)
      decreases todo
    {
      var addr :| addr in todo;
      var validFacs := ValidateFacilities(dests[addr]);
      KeptOneMore(dests, todo, addr);
      if validFacs != map[] {
        valid := valid[addr := validFacs];
      }
      todo := todo - {addr};
    }
  }

  // The kept overrides of the codes outside todo.
  function KeptFacsOutside(facs: FacConfig, todo: set<string>): FacConfig {
    map k | k in facs && k !in todo && Acceptable((k, facs[k])) :: facs[k]
  }

  lemma KeptFacsOneMore(facs: FacConfig, todo: set<string>, code: string)
    requires code in todo && code in facs
    ensures var valid := KeptFacsOutside(facs, todo);
            KeptFacsOutside(facs, todo - {code}) ==
            if Acceptable((code, facs[code])) then valid[code := facs[code]] else valid
  {
  }

  method ValidateFacilities(facs: FacConfig) returns (validFacs: FacConfig)
    ensures validFacs == Kept(facs)
  {
    validFacs := map[];
    var todo := facs.Keys;
    while todo != {}
      invariant todo <= facs.Keys && validFacs == KeptFacsOutside(facs, todo)
      decreases todo
    {
      var codeHex :| codeHex in todo;
      var valHex := facs[codeHex];
      KeptFacsOneMore(facs, todo, codeHex);
      todo := todo - {codeHex};
      var valid := ValidEntry(codeHex, valHex);
      if valid {
        validFacs := validFacs[codeHex := valHex];
      }
    }
  }

  // The checks on one override, in the code's order.
  method ValidEntry(codeHex: string, valHex: string) returns (valid: bool)
    ensures valid <==> Acceptable((codeHex, valHex))
  {
    var codeBytes := HexDecode(codeHex);
    if codeBytes.None? || |codeBytes.value| != 1 {
      return false;
    }
    var valBytes := HexDecode(valHex);
    if valBytes.None? {
      return false;
    }
    var kind := Class(codeBytes.value[0]);
    return kind == 3 || |valBytes.value| == kind + 1;
  }

  /** A validated override fits the facility format exactly when a class D value, whose length
      is not checked, is at most 255 bytes long. */
  lemma AcceptableIsSizedIff(o: Override)
    requires Acceptable(o)
    ensures SizedOverride(o) <==> (Class(Parsed(o).value.0) == 3 ==> |Parsed(o).value.1| <= 255)
  {
  }

  // os lists the entries of a configured map in the order an iteration delivers them.
  ghost predicate Iterates(os: seq<Override>, facs: FacConfig) {
    forall o :: o in os <==> o.0 in facs && facs[o.0] == o.1
  }

  /** A class D value that escapes the validation always shows: if the entry is in force, the
      rewritten list does not fit its length byte. */
  lemma OversizedValueSpills(facs: FacConfig, os: seq<Override>, o: Override, c: CallFields, order: seq<byte>)
    requires Iterates(os, Kept(facs)) && Agreeing(os) && o in os && !SizedOverride(o)
    requires Enumerates(order, Target(c, os))
    ensures |Encode(Target(c, os), order)| > 255
  {
    assert Acceptable(o);
    AcceptableIsSizedIff(o);
    var code := Parsed(o).value.0;
    OverriddenBy(Decoded(c.facilities), os, code, o);
    ValueWithinList(Target(c, os), order, code);
  }

  /** End to end: for every validated destination and every iteration order of both maps, the
      injected packet differs from the original in its facilities only, exactly when the
      rewritten list fits its length byte. */
  lemma ConfiguredInjectionIff(facs: FacConfig, os: seq<Override>, p: Packet, c: CallFields, order: seq<byte>)
    requires Iterates(os, Kept(facs))
    requires ParseCall(p, CALL_REQUEST) == Ok(c) && Enumerates(order, Target(c, os))
    ensures |c.called| <= 15 && |c.calling| <= 15
    ensures var r := ParseCall(Injected(p, c, os, order), CALL_REQUEST);
            && (r.Ok? && r.value.called == c.called && r.value.calling == c.calling
                && r.value.userData == c.userData && Decoded(r.value.facilities) == Target(c, os)
                <==> |Encode(Target(c, os), order)| <= 255)
  {
    assert forall o :: o in os ==> Acceptable(o);
    InjectionIff(p, c, os, order);
  }
}

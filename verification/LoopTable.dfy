/** The tun-loopback session table as a value: every forwarded call sits in two slots,
    (source node, kernel LCI) and (destination node, relay LCI), with a separate set of
    reserved relay LCIs that must agree with them. */
module LoopTable {
  import opened Wire
  import opened RoundRobin
  import opened Runs

  datatype Endpoint = Endpoint(node: nat, lci: nat)

  /** A forwarded call. The fields never change; identity matters to the ABA guard. */
  class LoopSession {
    const gfi: byte
    const tunA: nat
    const lciA: Lci
    const tunB: nat
    const lciB: Lci

    constructor (gfi: byte, tunA: nat, lciA: Lci, tunB: nat, lciB: Lci)
      ensures this.gfi == gfi && this.tunA == tunA && this.lciA == lciA && this.tunB == tunB && this.lciB == lciB
    {
      this.gfi, this.tunA, this.lciA, this.tunB, this.lciB := gfi, tunA, lciA, tunB, lciB;
    }
  }

  function SideA(s: LoopSession): Endpoint {
    Endpoint(s.tunA, s.lciA)
  }

  function SideB(s: LoopSession): Endpoint {
    Endpoint(s.tunB, s.lciB)
  }

  datatype Table = Table(slots: map<Endpoint, LoopSession>, used: set<Endpoint>)

  predicate Holds(t: Table, e: Endpoint, s: LoopSession) {
    e in t.slots && t.slots[e] == s
  }

  /** Every filled slot is one of its session's two distinct endpoints, both hold that
      session, and the reservations are exactly the live B-side endpoints. */
  ghost predicate Consistent(t: Table) {
    && (forall e :: e in t.slots ==> InPlace(t, e, t.slots[e]))
    && (forall e :: e in t.used ==> e in t.slots && SideB(t.slots[e]) == e)
  }

  ghost predicate InPlace(t: Table, e: Endpoint, s: LoopSession) {
    && (e == SideA(s) || e == SideB(s))
    && SideA(s) != SideB(s) && Holds(t, SideA(s), s) && Holds(t, SideB(s), s)
    && SideB(s) in t.used
  }

  ghost predicate Live(t: Table, s: LoopSession) {
    Holds(t, SideA(s), s)
  }

  // ---- the operations under the manager's mutex ----

  function Add(t: Table, s: LoopSession): Table {
    Table(t.slots[SideA(s) := s][SideB(s) := s], t.used + {SideB(s)})
  }

  function Remove(t: Table, s: LoopSession): Table {
    Table(t.slots - {SideA(s), SideB(s)}, t.used - {SideB(s)})
  }

  predicate Touches(s: LoopSession, n: nat) {
    s.tunA == n || s.tunB == n
  }

  function RemoveNode(t: Table, n: nat): Table {
    Table(map e | e in t.slots && !Touches(t.slots[e], n) :: t.slots[e],
          set e | e in t.used && e in t.slots && !Touches(t.slots[e], n))
  }

  // Whoever occupies one of s's endpoints occupies both, the same way round.
  predicate NoClash(t: Table, s: LoopSession) {
    forall e :: e in [SideA(s), SideB(s)] && e in t.slots ==>
                  SideA(t.slots[e]) == SideA(s) && SideB(t.slots[e]) == SideB(s)
  }

  /** Recording a call keeps the table consistent exactly when its endpoints differ and
      neither is taken by a call with other endpoints. */
  lemma AddIff(t: Table, s: LoopSession)
    requires Consistent(t)
    ensures Consistent(Add(t, s)) <==> NoClash(t, s) && SideA(s) != SideB(s)
  {
    var t' := Add(t, s);
    if NoClash(t, s) && SideA(s) != SideB(s) {
      forall e | e in t'.slots ensures InPlace(t', e, t'.slots[e]) {
        if e != SideA(s) && e != SideB(s) {
          assert InPlace(t, e, t.slots[e]);
        }
      }
    } else if SideA(s) == SideB(s) {
      assert !InPlace(t', SideA(s), s);
    } else {
      var e :| e in [SideA(s), SideB(s)] && e in t.slots
               && !(SideA(t.slots[e]) == SideA(s) && SideB(t.slots[e]) == SideB(s));
      ClashBreaksAdd(t, s, e);
    }
  }

  lemma ClashBreaksAdd(t: Table, s: LoopSession, e: Endpoint)
    requires Consistent(t) && SideA(s) != SideB(s)
    requires (e == SideA(s) || e == SideB(s)) && e in t.slots
    requires !(SideA(t.slots[e]) == SideA(s) && SideB(t.slots[e]) == SideB(s))
    ensures !Consistent(Add(t, s))
  {
    var r := t.slots[e];
    var t' := Add(t, s);
    assert InPlace(t, e, r);
    if SideA(r) == SideB(s) && SideB(r) == SideA(s) {
      assert SideA(s) in t'.used && SideB(t'.slots[SideA(s)]) != SideA(s);
    } else {
      var other := if SideA(r) == e then SideB(r) else SideA(r);
      assert Holds(t', other, r) && !Holds(t', e, r);
      assert !InPlace(t', other, r);
    }
  }

  /** Removing a call, live or stale, keeps the table consistent exactly when its endpoints
      have not passed to a call with other endpoints meanwhile. */
  lemma RemoveIff(t: Table, s: LoopSession)
    requires Consistent(t)
    ensures Consistent(Remove(t, s)) <==> NoClash(t, s)
  {
    var t' := Remove(t, s);
    if NoClash(t, s) {
      forall e | e in t'.slots ensures InPlace(t', e, t'.slots[e]) {
        assert InPlace(t, e, t.slots[e]);
      }
      forall e | e in t'.used ensures e in t'.slots && SideB(t'.slots[e]) == e {
        assert InPlace(t, e, t.slots[e]);
      }
    } else {
      var e :| e in [SideA(s), SideB(s)] && e in t.slots
               && !(SideA(t.slots[e]) == SideA(s) && SideB(t.slots[e]) == SideB(s));
      var r := t.slots[e];
      assert InPlace(t, e, r);
      var other := if SideA(r) == e then SideB(r) else SideA(r);
      if other in t'.slots {
        assert !InPlace(t', other, r);
      } else {
        assert SideB(r) in t'.used && SideB(r) !in t'.slots;
      }
    }
  }

  // Each endpoint of s is free or holds s itself.
  predicate OwnEnds(t: Table, s: LoopSession) {
    forall e :: e in [SideA(s), SideB(s)] && e in t.slots ==> t.slots[e] == s
  }

  /** Removing a call that may no longer be live takes out no other call exactly when its
      endpoints are free or still its own; then it is also consistent. A different call with
      the same two endpoints would go as a whole and leave a consistent table. */
  lemma RemoveSparesIff(t: Table, s: LoopSession)
    requires Consistent(t)
    ensures (forall e :: e in t.slots && t.slots[e] != s ==> Holds(Remove(t, s), e, t.slots[e])) <==> OwnEnds(t, s)
    ensures OwnEnds(t, s) ==> Consistent(Remove(t, s))
  {
    RemoveIff(t, s);
    if !OwnEnds(t, s) {
      var e :| e in [SideA(s), SideB(s)] && e in t.slots && t.slots[e] != s;
      assert !Holds(Remove(t, s), e, t.slots[e]);
    }
  }

  /** A live call's endpoints are its own, so removing it is always safe and touches no
      other call. */
  lemma LiveRemovable(t: Table, s: LoopSession)
    requires Consistent(t) && Live(t, s)
    ensures NoClash(t, s) && Consistent(Remove(t, s)) && !Live(Remove(t, s), s)
    ensures forall r: LoopSession :: r != s ==> (Live(Remove(t, s), r) <==> Live(t, r))
  {
    assert InPlace(t, SideA(s), s);
    RemoveIff(t, s);
    forall r: LoopSession | r != s && Live(t, r) ensures Live(Remove(t, s), r) {
      assert InPlace(t, SideA(r), r);
    }
  }

  /** Tearing a node down removes exactly the calls touching it and leaves the rest. */
  lemma RemoveNodeExact(t: Table, n: nat)
    requires Consistent(t)
    ensures Consistent(RemoveNode(t, n))
    ensures forall r: LoopSession :: Live(RemoveNode(t, n), r) <==> Live(t, r) && !Touches(r, n)
    ensures forall e :: e in RemoveNode(t, n).slots ==> e.node != n
  {
    var t' := RemoveNode(t, n);
    forall e | e in t'.slots ensures InPlace(t', e, t'.slots[e]) && e.node != n {
      assert InPlace(t, e, t.slots[e]);
    }
  }

  // ---- LCI translation ----

  /** Where a packet arriving at a live endpoint is sent. */
  function Peer(t: Table, e: Endpoint): Endpoint
    requires e in t.slots
  {
    if SideA(t.slots[e]) == e then SideB(t.slots[e]) else SideA(t.slots[e])
  }

  /** Translation over live endpoints is an involution without fixed points, so it is
      injective: no two calls ever share a target, self-calls included. */
  lemma PeerInvolution(t: Table, e: Endpoint)
    requires Consistent(t) && e in t.slots
    ensures Peer(t, e) in t.slots && t.slots[Peer(t, e)] == t.slots[e]
    ensures Peer(t, e) != e && Peer(t, Peer(t, e)) == e
    ensures forall e' :: e' in t.slots && Peer(t, e') == Peer(t, e) ==> e' == e
  {
    assert InPlace(t, e, t.slots[e]);
    forall e' | e' in t.slots && Peer(t, e') == Peer(t, e) ensures e' == e {
      assert InPlace(t, e', t.slots[e']);
    }
  }

  /** A packet leaving x reaches y under y's LCI, any reply from y reaches x under x's LCI,
      and apart from the 12 LCI bits neither is changed. */
  lemma ReplyReturns(t: Table, x: Endpoint, packet: seq<byte>, reply: seq<byte>)
    requires Consistent(t) && x in t.slots && x.lci < 4096
    requires |packet| >= 2 && GetLCI(packet) == x.lci
    ensures Peer(t, x) in t.slots && Peer(t, x).lci < 4096
    ensures var y := Peer(t, x);
            var sent := Relabel(packet, y.lci);
            && GetLCI(sent) == y.lci && GetGFI(sent) == GetGFI(packet) && sent[2..] == packet[2..]
            && Relabel(sent, x.lci) == packet
            && (|reply| >= 2 && GetLCI(reply) == y.lci ==>
                  && Peer(t, Endpoint(y.node, GetLCI(reply))) == x
                  && GetLCI(Relabel(reply, x.lci)) == x.lci
                  && GetGFI(Relabel(reply, x.lci)) == GetGFI(reply)
                  && Relabel(reply, x.lci)[2..] == reply[2..])
  {
    PeerInvolution(t, x);
    var y := Peer(t, x);
    RelabelFrame(packet, y.lci);
    RelabelUndo(packet, y.lci);
    if |reply| >= 2 {
      RelabelFrame(reply, x.lci);
    }
  }

  // ---- critical sections, interleaved in any order ----

  // The destination ranges of all nodes, each with its allocation cursor.
  datatype Shared = Shared(t: Table, rings: seq<Ring>)

  function UsedOn(t: Table, n: nat): set<nat> {
    set e | e in t.used && e.node == n :: e.lci
  }

  // A CALL_REQUEST on a busy source LCI first evicts the stale call.
  function Evict(t: Table, e: Endpoint): Table {
    if e in t.slots then Remove(t, t.slots[e]) else t
  }

  datatype Section =
    | CallSection(s: LoopSession)            // evict, allocate on the destination, record
    | ConfirmSection(e: Endpoint, s: LoopSession) // guarded removal on CLEAR_CONFIRM
    | RollbackSection(s: LoopSession)        // unguarded removal after a failed write
    | NodeSection(n: nat)                    // teardown of a node

  ghost predicate Valid(g: Shared) {
    forall n :: 0 <= n < |g.rings| ==> g.rings[n].Valid()
  }

  // What the destination's allocator answers once the stale call is gone.
  function Allocation(g: Shared, s: LoopSession): Option<nat>
    requires s.tunB < |g.rings| && g.rings[s.tunB].Valid()
  {
    Pick(g.rings[s.tunB], UsedOn(Evict(g.t, SideA(s)), s.tunB))
  }

  // s is recorded: it carries the LCI that was allocated.
  predicate Records(g: Shared, s: LoopSession) {
    && s.tunB < |g.rings| && g.rings[s.tunB].Valid() && g.rings[s.tunB].Has(s.lciB)
    && Allocation(g, s) == Some(s.lciB)
  }

  // A call section records the session it creates or finds the range exhausted.
  ghost predicate Enabled(g: Shared, c: Section) {
    c.CallSection? ==>
      c.s.tunA < |g.rings| && c.s.tunB < |g.rings| && g.rings[c.s.tunB].Valid()
      && (Records(g, c.s) || Allocation(g, c.s).None?)
  }

  function Perform(g: Shared, c: Section): Shared {
    match c
    case CallSection(s) =>
      if Records(g, s)
      then Shared(Add(Evict(g.t, SideA(s)), s), g.rings[s.tunB := g.rings[s.tunB].After(s.lciB)])
      else g.(t := Evict(g.t, SideA(s)))
    case ConfirmSection(e, s) => if Holds(g.t, e, s) then g.(t := Remove(g.t, s)) else g
    case RollbackSection(s) => g.(t := Remove(g.t, s))
    case NodeSection(n) => g.(t := RemoveNode(g.t, n))
  }

  // What the two unguarded sections rely on: the slot of the allocated LCI is free, and the
  // endpoints of a rolled-back call have not passed to another one.
  predicate Safe(g: Shared, c: Section) {
    match c
    case CallSection(s) => Records(g, s) ==> SideB(s) !in Evict(g.t, SideA(s)).slots && SideA(s) != SideB(s)
    case RollbackSection(s) => NoClash(g.t, s)
    case _ => true
  }

  lemma EvictFrees(t: Table, e: Endpoint)
    requires Consistent(t)
    ensures Consistent(Evict(t, e)) && e !in Evict(t, e).slots
  {
    if e in t.slots {
      assert InPlace(t, e, t.slots[e]);
      LiveRemovable(t, t.slots[e]);
    }
  }

  /** Each critical section keeps the table consistent exactly when it is safe. */
  lemma SectionIff(g: Shared, c: Section)
    requires Consistent(g.t)
    ensures Consistent(Perform(g, c).t) <==> Safe(g, c)
  {
    match c {
      case CallSection(s) =>
        EvictFrees(g.t, SideA(s));
        if Records(g, s) {
          var t := Evict(g.t, SideA(s));
          AddIff(t, s);
          if SideB(s) in t.slots {
            assert InPlace(t, SideB(s), t.slots[SideB(s)]);
          }
        }
      case ConfirmSection(e, s) =>
        if Holds(g.t, e, s) {
          assert InPlace(g.t, e, s);
          LiveRemovable(g.t, s);
        }
      case RollbackSection(s) => RemoveIff(g.t, s);
      case NodeSection(n) => RemoveNodeExact(g.t, n);
    }
  }

  ghost predicate SectionRun(gs: seq<Shared>, cs: seq<Section>) {
    && |gs| == |cs| + 1
    && gs[0].t == Table(map[], {}) && Valid(gs[0])
    && forall i :: 0 <= i < |cs| ==> Enabled(gs[i], cs[i]) && gs[i + 1] == Perform(gs[i], cs[i])
  }

  /** However the readers' critical sections interleave, the table is consistent at every
      point up to n exactly when every section before n was safe when it ran. */
  lemma {:induction false} RunConsistentIff(gs: seq<Shared>, cs: seq<Section>, n: nat)
    requires SectionRun(gs, cs) && n < |gs|
    ensures (forall i :: 0 <= i <= n ==> Consistent(gs[i].t)) <==> (forall i :: 0 <= i < n ==> Safe(gs[i], cs[i]))
  {
    if n > 0 {
      RunConsistentIff(gs, cs, n - 1);
      assert gs[n - 1 + 1] == Perform(gs[n - 1], cs[n - 1]);
      if Consistent(gs[n - 1].t) {
        SectionIff(gs[n - 1], cs[n - 1]);
      }
    }
  }

  // ---- the documented LCI partition ----

  /** Kernel-chosen LCIs lie outside the node's relay range, relay-chosen ones inside. */
  ghost predicate Partitioned(g: Shared) {
    forall e :: e in g.t.slots ==> Apart(g.rings, g.t.slots[e])
  }

  predicate Apart(rings: seq<Ring>, s: LoopSession) {
    && s.tunA < |rings| && s.tunB < |rings|
    && !rings[s.tunA].Has(s.lciA) && rings[s.tunB].Has(s.lciB)
  }

  // Section c records a call other than s on one of s's endpoints.
  predicate TakesEnd(g: Shared, c: Section, s: LoopSession) {
    && c.CallSection? && c.s != s && Records(g, c.s)
    && (SideA(c.s) in [SideA(s), SideB(s)] || SideB(c.s) in [SideA(s), SideB(s)])
  }

  /** A section leaves the endpoints of s its own exactly when it gives none of them to
      another call. */
  lemma OwnEndsIff(g: Shared, c: Section, s: LoopSession)
    requires OwnEnds(g.t, s)
    ensures OwnEnds(Perform(g, c).t, s) <==> !TakesEnd(g, c, s)
  {
    var t' := Perform(g, c).t;
    if TakesEnd(g, c, s) {
      var e := if SideB(c.s) in [SideA(s), SideB(s)] then SideB(c.s) else SideA(c.s);
      assert e in t'.slots && t'.slots[e] == c.s;
    }
  }

  lemma RecordedOwnsEnds(g: Shared, s: LoopSession)
    requires Records(g, s)
    ensures OwnEnds(Perform(g, CallSection(s)).t, s)
  {
  }

  /** From the moment a call is recorded, its endpoints stay its own or free exactly as long
      as no other call is recorded on one of them: that is when its rollback is safe. */
  lemma RecordedOwnsEndsIff(gs: seq<Shared>, cs: seq<Section>, s: LoopSession, k: nat, n: nat)
    requires SectionRun(gs, cs) && k < n < |gs| && cs[k] == CallSection(s) && Records(gs[k], s)
    ensures (forall i :: k < i <= n ==> OwnEnds(gs[i].t, s)) <==> (forall i :: k < i < n ==> !TakesEnd(gs[i], cs[i], s))
  {
    var own := seq(|gs|, i requires 0 <= i < |gs| => OwnEnds(gs[i].t, s));
    var taken := seq(|cs|, i requires 0 <= i < |cs| => TakesEnd(gs[i], cs[i], s));
    assert gs[k + 1] == Perform(gs[k], cs[k]);
    RecordedOwnsEnds(gs[k], s);
    forall i | k + 1 <= i < |cs| && own[i] ensures own[i + 1] <==> !taken[i] {
      assert gs[i + 1] == Perform(gs[i], cs[i]);
      OwnEndsIff(gs[i], cs[i], s);
    }
    StaysIff(own, taken, k + 1, n);
    assert forall i :: k + 1 <= i <= n ==> own[i] == OwnEnds(gs[i].t, s);
    assert forall i :: k + 1 <= i < n ==> taken[i] == TakesEnd(gs[i], cs[i], s);
  }

  // s was recorded by section k, and no later one before i gave away one of its endpoints.
  predicate Untaken(gs: seq<Shared>, cs: seq<Section>, s: LoopSession, k: nat, i: nat) {
    && k < i <= |cs| && i < |gs| && cs[k] == CallSection(s) && Records(gs[k], s)
    && forall j :: k < j < i ==> !TakesEnd(gs[j], cs[j], s)
  }

  // The kernel's side of the partition.
  predicate KernelSide(g: Shared, c: Section) {
    c.CallSection? ==> c.s.tunA < |g.rings| && !g.rings[c.s.tunA].Has(c.s.lciA)
  }

  // The environment's side of the partition, and a rollback that comes before its call's
  // endpoints are given to another one.
  ghost predicate Assumed(gs: seq<Shared>, cs: seq<Section>, i: nat)
    requires i < |cs| && i < |gs|
  {
    && KernelSide(gs[i], cs[i])
    && (cs[i].RollbackSection? ==> exists k :: Untaken(gs, cs, cs[i].s, k, i))
  }

  // What that comes to at the moment of one section.
  predicate Harmless(g: Shared, c: Section) {
    KernelSide(g, c) && (c.RollbackSection? ==> OwnEnds(g.t, c.s))
  }

  lemma AssumedIsHarmless(gs: seq<Shared>, cs: seq<Section>, i: nat)
    requires SectionRun(gs, cs) && i < |cs| && Assumed(gs, cs, i)
    ensures Harmless(gs[i], cs[i])
  {
    if cs[i].RollbackSection? {
      var k :| Untaken(gs, cs, cs[i].s, k, i);
      RecordedOwnsEndsIff(gs, cs, cs[i].s, k, i);
    }
  }

  lemma PartitionMakesSafe(g: Shared, c: Section)
    requires Consistent(g.t) && Partitioned(g) && Enabled(g, c) && Harmless(g, c)
    ensures Safe(g, c)
  {
    if c.CallSection? && Records(g, c.s) {
      var s, t := c.s, Evict(g.t, SideA(c.s));
      EvictFrees(g.t, SideA(s));
      PickIsNearestFree(g.rings[s.tunB], UsedOn(t, s.tunB));
      forall e | e in t.slots && e.node == s.tunB && g.rings[s.tunB].Has(e.lci) ensures e.lci in UsedOn(t, s.tunB) {
        assert InPlace(t, e, t.slots[e]) && Apart(g.rings, t.slots[e]);
        assert e in t.used;
      }
    }
  }

  lemma PartitionKept(g: Shared, c: Section)
    requires Valid(g) && Partitioned(g) && Enabled(g, c) && KernelSide(g, c)
    ensures Valid(Perform(g, c)) && Partitioned(Perform(g, c))
  {
    if c.CallSection? && Records(g, c.s) {
      AfterCursor(g.rings[c.s.tunB], c.s.lciB);
      var g' := Perform(g, c);
      forall e | e in g'.t.slots ensures Apart(g'.rings, g'.t.slots[e]) {
        assert g'.t.slots[e] != c.s ==> Apart(g.rings, g.t.slots[e]);
      }
    }
  }

  /** Given the partition, every interleaving keeps the table consistent as long as no call is
      rolled back after another one was recorded on one of its endpoints. */
  lemma {:induction false} PartitionedRunConsistent(gs: seq<Shared>, cs: seq<Section>, n: nat)
    requires SectionRun(gs, cs) && n < |gs|
    requires forall i :: 0 <= i < n ==> Assumed(gs, cs, i)
    ensures Consistent(gs[n].t) && Partitioned(gs[n]) && Valid(gs[n])
  {
    if n > 0 {
      PartitionedRunConsistent(gs, cs, n - 1);
      var g, c := gs[n - 1], cs[n - 1];
      assert Enabled(g, c) && gs[n - 1 + 1] == Perform(g, c);
      AssumedIsHarmless(gs, cs, n - 1);
      PartitionMakesSafe(g, c);
      SectionIff(g, c);
      PartitionKept(g, c);
    }
  }

  /** The rollback race: if the destination LCI of a call that is no longer live has been
      given to another call r, rolling the first one back tears r in half. Its caller still
      has a slot, but packets from its callee find none and its LCI looks free. */
  lemma RollbackTearsNewOwner(g: Shared, s: LoopSession, r: LoopSession)
    requires Consistent(g.t) && Live(g.t, r) && SideB(r) == SideB(s) && SideA(r) != SideA(s)
    ensures var t' := Perform(g, RollbackSection(s)).t;
            && !Consistent(t') && Holds(t', SideA(r), r)
            && SideB(r) !in t'.slots && r.lciB !in UsedOn(t', r.tunB)
  {
    assert InPlace(g.t, SideA(r), r);
    assert !NoClash(g.t, s) by {
      assert SideB(s) in [SideA(s), SideB(s)] && g.t.slots[SideB(s)] == r;
    }
    RemoveIff(g.t, s);
  }
}

/** The rollback race of tun-loopback, with the program order of the readers: each node's
    sections come from its one reader, which handles a call from recording to rollback without
    doing anything else. */
module LoopRaces {
  import opened Wire
  import opened RoundRobin
  import opened Runs
  import opened LoopTable

  // The node whose reader runs a section.
  function ReaderOf(c: Section): nat {
    match c
    case CallSection(s) => s.tunA
    case ConfirmSection(e, _) => e.node
    case RollbackSection(s) => s.tunA
    case NodeSection(n) => n
  }

  // Section i rolls back the call that section k recorded, the last one of the same reader.
  predicate RollsBack(gs: seq<Shared>, cs: seq<Section>, k: nat, i: nat) {
    && k < i < |cs| <= |gs| && cs[i].RollbackSection?
    && cs[k] == CallSection(cs[i].s) && Records(gs[k], cs[i].s)
    && forall j :: k < j < i ==> ReaderOf(cs[j]) != ReaderOf(cs[i])
  }

  /** An interleaving of the readers' sections: every rollback belongs to its reader's last
      call, and the kernel respects the LCI partition. */
  ghost predicate OrderedRun(gs: seq<Shared>, cs: seq<Section>) {
    && SectionRun(gs, cs)
    && (forall i :: 0 <= i < |cs| ==> KernelSide(gs[i], cs[i]))
    && (forall i :: 0 <= i < |cs| && cs[i].RollbackSection? ==> exists k :: RollsBack(gs, cs, k, i))
  }

  // ---- what holds in any such run ----

  lemma {:induction false} PartitionHolds(gs: seq<Shared>, cs: seq<Section>, n: nat)
    requires OrderedRun(gs, cs) && n < |gs|
    ensures Partitioned(gs[n]) && Valid(gs[n])
  {
    if n > 0 {
      PartitionHolds(gs, cs, n - 1);
      assert Enabled(gs[n - 1], cs[n - 1]) && gs[n - 1 + 1] == Perform(gs[n - 1], cs[n - 1]);
      PartitionKept(gs[n - 1], cs[n - 1]);
    }
  }

  predicate SameRanges(g: Shared, g': Shared) {
    && |g'.rings| == |g.rings|
    && forall n :: 0 <= n < |g.rings| ==> g'.rings[n].start == g.rings[n].start && g'.rings[n].size == g.rings[n].size
  }

  // Only the cursors of the allocators move.
  lemma {:induction false} RangesFixed(gs: seq<Shared>, cs: seq<Section>, m: nat, n: nat)
    requires SectionRun(gs, cs) && m <= n < |gs|
    ensures SameRanges(gs[m], gs[n])
  {
    if m < n {
      RangesFixed(gs, cs, m, n - 1);
      assert gs[n - 1 + 1] == Perform(gs[n - 1], cs[n - 1]);
    }
  }

  // Section j records r, the holder of endpoint e.
  predicate RecordsAt(gs: seq<Shared>, cs: seq<Section>, j: nat, r: LoopSession, e: Endpoint) {
    j < |cs| <= |gs| && cs[j] == CallSection(r) && Records(gs[j], r) && (e == SideA(r) || e == SideB(r))
  }

  // A slot changes its holder only when a call is recorded on it.
  lemma SlotStep(g: Shared, c: Section, e: Endpoint)
    requires e in Perform(g, c).t.slots
    ensures var r := Perform(g, c).t.slots[e];
            Holds(g.t, e, r) || (c == CallSection(r) && Records(g, r) && (e == SideA(r) || e == SideB(r)))
  {
  }

  lemma {:induction false} HolderSince(gs: seq<Shared>, cs: seq<Section>, k: nat, i: nat, e: Endpoint)
    requires SectionRun(gs, cs) && k < i < |gs| && e in gs[i].t.slots
    ensures Holds(gs[k + 1].t, e, gs[i].t.slots[e]) || exists j :: k < j < i && RecordsAt(gs, cs, j, gs[i].t.slots[e], e)
  {
    if k + 1 < i {
      assert gs[i - 1 + 1] == Perform(gs[i - 1], cs[i - 1]);
      SlotStep(gs[i - 1], cs[i - 1], e);
      var r := gs[i].t.slots[e];
      if Holds(gs[i - 1].t, e, r) {
        HolderSince(gs, cs, k, i - 1, e);
      } else {
        assert RecordsAt(gs, cs, i - 1, r, e);
      }
    }
  }

  // ---- when a rollback hits another call ----

  // Between its call k and rollback i, section j records another call under the same relay
  // LCI, and that call is still live.
  ghost predicate ReassignedBy(gs: seq<Shared>, cs: seq<Section>, k: nat, j: nat, i: nat) {
    && RollsBack(gs, cs, k, i) && k < j < i
    && cs[j].CallSection? && RecordsAt(gs, cs, j, cs[j].s, SideB(cs[i].s))
    && SideB(cs[j].s) == SideB(cs[i].s) && Live(gs[i].t, cs[j].s)
  }

  ghost predicate Reassigned(gs: seq<Shared>, cs: seq<Section>, i: nat) {
    exists k, j :: ReassignedBy(gs, cs, k, j, i)
  }

  // Inside the partition, calls from different nodes can only meet in their relay LCIs.
  lemma MeetInRelayLci(rings: seq<Ring>, s: LoopSession, r: LoopSession, e: Endpoint)
    requires Apart(rings, s) && Apart(rings, r) && s.tunA != r.tunA
    requires (e == SideA(s) || e == SideB(s)) && (e == SideA(r) || e == SideB(r))
    ensures e == SideB(s) == SideB(r) && SideA(s) != SideA(r)
  {
  }

  // The partition as it was when s was recorded is the one that holds later.
  lemma StillApart(gs: seq<Shared>, cs: seq<Section>, k: nat, i: nat)
    requires OrderedRun(gs, cs) && k < i < |gs| && k < |cs| && cs[k].CallSection? && Records(gs[k], cs[k].s)
    ensures Apart(gs[i].rings, cs[k].s)
  {
    assert KernelSide(gs[k], cs[k]);
    RangesFixed(gs, cs, k, i);
  }

  lemma RecordedHolds(gs: seq<Shared>, cs: seq<Section>, k: nat)
    requires SectionRun(gs, cs) && k < |cs| && cs[k].CallSection? && Records(gs[k], cs[k].s)
    ensures Holds(gs[k + 1].t, SideA(cs[k].s), cs[k].s) || SideA(cs[k].s) == SideB(cs[k].s)
    ensures Holds(gs[k + 1].t, SideB(cs[k].s), cs[k].s)
  {
    assert gs[k + 1] == Perform(gs[k], cs[k]);
  }

  /** Whoever else holds an endpoint of a call that is rolled back was recorded meanwhile, by
      another reader and under the same relay LCI. */
  lemma OtherHolder(gs: seq<Shared>, cs: seq<Section>, k: nat, i: nat, e: Endpoint) returns (j: nat)
    requires OrderedRun(gs, cs) && RollsBack(gs, cs, k, i) && e in gs[i].t.slots && gs[i].t.slots[e] != cs[i].s
    requires e == SideA(cs[i].s) || e == SideB(cs[i].s)
    ensures k < j < i && RecordsAt(gs, cs, j, gs[i].t.slots[e], SideB(cs[i].s))
    ensures var r := gs[i].t.slots[e]; e == SideB(cs[i].s) == SideB(r) && SideA(r) != SideA(cs[i].s)
  {
    var r := gs[i].t.slots[e];
    RecordedHolds(gs, cs, k);
    HolderSince(gs, cs, k, i, e);
    j :| k < j < i && RecordsAt(gs, cs, j, r, e);
    assert ReaderOf(cs[j]) != ReaderOf(cs[i]);
    StillApart(gs, cs, k, i);
    StillApart(gs, cs, j, i);
    MeetInRelayLci(gs[i].rings, cs[i].s, r, e);
  }

  lemma ReassignedClashes(gs: seq<Shared>, cs: seq<Section>, k: nat, j: nat, i: nat)
    requires ReassignedBy(gs, cs, k, j, i) && Consistent(gs[i].t)
    ensures Holds(gs[i].t, SideB(cs[i].s), cs[j].s) && SideA(cs[j].s) != SideA(cs[i].s)
    ensures !NoClash(gs[i].t, cs[i].s)
  {
    var s, r := cs[i].s, cs[j].s;
    assert ReaderOf(cs[j]) != ReaderOf(cs[i]);
    assert InPlace(gs[i].t, SideA(r), r);
    assert SideB(s) in [SideA(s), SideB(s)];
  }

  /** A rollback clashes exactly when its relay LCI has been reassigned to a call that is still
      live. */
  lemma ClashIffReassigned(gs: seq<Shared>, cs: seq<Section>, i: nat)
    requires OrderedRun(gs, cs) && i < |cs| && cs[i].RollbackSection? && Consistent(gs[i].t)
    ensures NoClash(gs[i].t, cs[i].s) <==> !Reassigned(gs, cs, i)
  {
    var s := cs[i].s;
    if Reassigned(gs, cs, i) {
      var k: nat, j: nat :| ReassignedBy(gs, cs, k, j, i);
      ReassignedClashes(gs, cs, k, j, i);
    } else if !NoClash(gs[i].t, s) {
      var e :| e in [SideA(s), SideB(s)] && e in gs[i].t.slots
               && !(SideA(gs[i].t.slots[e]) == SideA(s) && SideB(gs[i].t.slots[e]) == SideB(s));
      var k :| RollsBack(gs, cs, k, i);
      var j := OtherHolder(gs, cs, k, i, e);
      assert InPlace(gs[i].t, e, gs[i].t.slots[e]);
      assert ReassignedBy(gs, cs, k, j, i);
    }
  }

  lemma OrderedStepIff(gs: seq<Shared>, cs: seq<Section>, i: nat)
    requires OrderedRun(gs, cs) && i < |cs| && Consistent(gs[i].t)
    ensures Consistent(gs[i + 1].t) <==> !(cs[i].RollbackSection? && Reassigned(gs, cs, i))
  {
    assert Enabled(gs[i], cs[i]) && gs[i + 1] == Perform(gs[i], cs[i]) && KernelSide(gs[i], cs[i]);
    SectionIff(gs[i], cs[i]);
    if cs[i].RollbackSection? {
      ClashIffReassigned(gs, cs, i);
    } else {
      PartitionHolds(gs, cs, i);
      PartitionMakesSafe(gs[i], cs[i]);
    }
  }

  // The two sides of OrderedStepIff, position by position.
  ghost function ConsistentAt(gs: seq<Shared>): seq<bool> {
    seq(|gs|, i requires 0 <= i < |gs| => Consistent(gs[i].t))
  }

  ghost function ReassignedAt(gs: seq<Shared>, cs: seq<Section>): seq<bool> {
    seq(|cs|, i requires 0 <= i < |cs| => cs[i].RollbackSection? && Reassigned(gs, cs, i))
  }

  lemma FlagsStep(gs: seq<Shared>, cs: seq<Section>, i: nat)
    requires OrderedRun(gs, cs) && i < |cs| && ConsistentAt(gs)[i]
    ensures ConsistentAt(gs)[i + 1] <==> !ReassignedAt(gs, cs)[i]
  {
    OrderedStepIff(gs, cs, i);
  }

  lemma FlagsStay(gs: seq<Shared>, cs: seq<Section>, n: nat)
    requires OrderedRun(gs, cs) && n < |gs|
    ensures (forall i :: 0 <= i <= n ==> ConsistentAt(gs)[i]) <==> (forall i :: 0 <= i < n ==> !ReassignedAt(gs, cs)[i])
  {
    forall i | 0 <= i < |cs| && ConsistentAt(gs)[i] ensures ConsistentAt(gs)[i + 1] <==> !ReassignedAt(gs, cs)[i] {
      FlagsStep(gs, cs, i);
    }
    StaysIff(ConsistentAt(gs), ReassignedAt(gs, cs), 0, n);
  }

  /** With the readers' program order and the partition, a run keeps the table consistent
      throughout exactly when no call is rolled back while another one, recorded since under
      the same relay LCI, is live. */
  lemma OrderedRunConsistentIff(gs: seq<Shared>, cs: seq<Section>, n: nat)
    requires OrderedRun(gs, cs) && n < |gs|
    ensures (forall i :: 0 <= i <= n ==> Consistent(gs[i].t)) <==>
            (forall i :: 0 <= i < n && cs[i].RollbackSection? ==> !Reassigned(gs, cs, i))
  {
    FlagsStay(gs, cs, n);
    assert forall i :: 0 <= i <= n ==> ConsistentAt(gs)[i] == Consistent(gs[i].t);
    assert forall i :: 0 <= i < n ==> ReassignedAt(gs, cs)[i] == (cs[i].RollbackSection? && Reassigned(gs, cs, i));
  }

  // r has lost its relay slot and reservation but not its kernel slot.
  predicate Torn(t: Table, r: LoopSession) {
    Holds(t, SideA(r), r) && SideB(r) !in t.slots && SideB(r) !in t.used
  }

  /** And then the other call is always torn in half. */
  lemma ReassignedIsTorn(gs: seq<Shared>, cs: seq<Section>, i: nat)
    requires OrderedRun(gs, cs) && i < |cs| && cs[i].RollbackSection?
    requires Consistent(gs[i].t) && Reassigned(gs, cs, i)
    ensures exists j :: 0 <= j < i && cs[j].CallSection? && Torn(gs[i + 1].t, cs[j].s)
  {
    var k: nat, j: nat :| ReassignedBy(gs, cs, k, j, i);
    ReassignedClashes(gs, cs, k, j, i);
    assert gs[i + 1] == Perform(gs[i], cs[i]);
    RemoveTears(gs[i].t, cs[i].s, cs[j].s);
  }

  lemma RemoveTears(t: Table, s: LoopSession, r: LoopSession)
    requires Consistent(t) && Live(t, r) && SideB(r) == SideB(s) && SideA(r) != SideA(s)
    ensures Torn(Remove(t, s), r)
  {
    assert InPlace(t, SideA(r), r);
  }

  // ---- a run that gets there ----

  lemma FreeCursor(r: Ring, used: set<nat>)
    requires r.Valid() && r.next !in used
    ensures Pick(r, used) == Some(r.next)
    ensures r.After(r.next).next == if r.next + 1 < r.start + r.size then r.next + 1 else r.start
  {
    ModOnce(r.next - r.start, r.size);
    AfterCursor(r, r.next);
  }

  // A section that records s under the LCI its destination's cursor is on.
  lemma RecordsAtCursor(g: Shared, s: LoopSession)
    requires s.tunA < |g.rings| && s.tunB < |g.rings| && g.rings[s.tunB].Valid() && s.lciB == g.rings[s.tunB].next
    requires SideA(s) !in g.t.slots && s.lciB !in UsedOn(g.t, s.tunB)
    ensures Enabled(g, CallSection(s)) && Records(g, s)
    ensures Perform(g, CallSection(s)) == Shared(Add(g.t, s), g.rings[s.tunB := g.rings[s.tunB].After(s.lciB)])
  {
    FreeCursor(g.rings[s.tunB], UsedOn(g.t, s.tunB));
  }

  // Three nodes with the relay range 10 to 11; node 1's cursor moves.
  function Three(t: Table, next: nat): Shared {
    Shared(t, [Ring(10, 2, 10), Ring(10, 2, next), Ring(10, 2, 10)])
  }

  const EMPTY := Table(map[], {})

  // A call s from node 0 to node 1; two later calls q and r from node 2 to node 1.
  predicate Scenario(s: LoopSession, q: LoopSession, r: LoopSession) {
    && s.tunA == 0 && q.tunA == r.tunA == 2 && s.tunB == q.tunB == r.tunB == 1
    && s.lciB == r.lciB == 10 && q.lciB == 11
    && s.lciA < 10 && q.lciA < 10 && r.lciA < 10 && q.lciA != r.lciA
  }

  lemma RecordOnThree(t: Table, next: nat, s: LoopSession)
    requires (next == 10 || next == 11) && s.tunA < 3 && s.tunB == 1 && s.lciB == next
    requires SideA(s) !in t.slots && SideB(s) !in t.used
    ensures var g := Three(t, next);
            && Enabled(g, CallSection(s)) && Records(g, s)
            && Perform(g, CallSection(s)) == Three(Add(t, s), if next == 10 then 11 else 10)
  {
    assert s.lciB !in UsedOn(t, 1);
    RecordsAtCursor(Three(t, next), s);
    FreeCursor(Ring(10, 2, next), {});
  }

  lemma NodeDown(t: Table, next: nat)
    requires forall e :: e in t.slots ==> Touches(t.slots[e], 1)
    ensures Perform(Three(t, next), NodeSection(1)) == Three(EMPTY, next)
  {
    assert RemoveNode(t, 1) == EMPTY;
  }

  /** While node 0's reader waits for the write of s to return, node 1 goes down and comes up
      again, and node 2's reader records q and r; r gets the relay LCI of s. Then the write
      has failed and s is rolled back. */
  function RaceSections(s: LoopSession, q: LoopSession, r: LoopSession): seq<Section> {
    [CallSection(s), NodeSection(1), CallSection(q), CallSection(r), RollbackSection(s)]
  }

  function RaceStates(s: LoopSession, q: LoopSession, r: LoopSession): seq<Shared> {
    var both := Add(Add(EMPTY, q), r);
    [Three(EMPTY, 10), Three(Add(EMPTY, s), 11), Three(EMPTY, 11), Three(Add(EMPTY, q), 10), Three(both, 11),
     Three(Remove(both, s), 11)]
  }

  lemma RaceStep(s: LoopSession, q: LoopSession, r: LoopSession, i: nat)
    requires Scenario(s, q, r) && i < 5
    ensures var g, c := RaceStates(s, q, r)[i], RaceSections(s, q, r)[i];
            Enabled(g, c) && RaceStates(s, q, r)[i + 1] == Perform(g, c)
  {
    if i == 0 {
      RecordOnThree(EMPTY, 10, s);
    } else if i == 1 {
      NodeDown(Add(EMPTY, s), 11);
    } else if i == 2 {
      RecordOnThree(EMPTY, 11, q);
    } else if i == 3 {
      RecordOnThree(Add(EMPTY, q), 10, r);
    }
  }

  lemma RaceKernelSide(s: LoopSession, q: LoopSession, r: LoopSession, i: nat)
    requires Scenario(s, q, r) && i < 5
    ensures KernelSide(RaceStates(s, q, r)[i], RaceSections(s, q, r)[i])
  {
  }

  lemma RaceOrdered(s: LoopSession, q: LoopSession, r: LoopSession)
    requires Scenario(s, q, r)
    ensures OrderedRun(RaceStates(s, q, r), RaceSections(s, q, r))
    ensures RollsBack(RaceStates(s, q, r), RaceSections(s, q, r), 0, 4)
  {
    var gs, cs := RaceStates(s, q, r), RaceSections(s, q, r);
    forall i | 0 <= i < |cs|
      ensures Enabled(gs[i], cs[i]) && gs[i + 1] == Perform(gs[i], cs[i]) && KernelSide(gs[i], cs[i])
    {
      RaceStep(s, q, r, i);
      RaceKernelSide(s, q, r, i);
    }
    RecordOnThree(EMPTY, 10, s);
    assert RollsBack(gs, cs, 0, 4);
  }

  lemma BothLive(s: LoopSession, q: LoopSession, r: LoopSession)
    requires Scenario(s, q, r)
    ensures Live(Add(Add(EMPTY, q), r), r)
  {
  }

  /** So the race happens: in this run, inside the partition and in program order, the table is
      consistent until s is rolled back, and then r is torn in half. */
  lemma RollbackRaceHappens(s: LoopSession, q: LoopSession, r: LoopSession)
    requires Scenario(s, q, r)
    ensures var gs, cs := RaceStates(s, q, r), RaceSections(s, q, r);
            && OrderedRun(gs, cs) && cs[4] == RollbackSection(s)
            && (forall i :: 0 <= i <= 4 ==> Consistent(gs[i].t))
            && Live(gs[4].t, r) && !Consistent(gs[5].t) && Torn(gs[5].t, r)
  {
    var gs, cs := RaceStates(s, q, r), RaceSections(s, q, r);
    RaceOrdered(s, q, r);
    OrderedRunConsistentIff(gs, cs, 4);
    BothLive(s, q, r);
    RecordOnThree(Add(EMPTY, q), 10, r);
    assert ReassignedBy(gs, cs, 0, 3, 4);
    ReassignedClashes(gs, cs, 0, 3, 4);
    OrderedStepIff(gs, cs, 4);
    RemoveTears(gs[4].t, s, r);
  }

  // The same, except that node 1 goes down once more before the rollback.
  function LateSections(s: LoopSession, q: LoopSession, r: LoopSession): seq<Section> {
    RaceSections(s, q, r)[..4] + [NodeSection(1), RollbackSection(s)]
  }

  function LateStates(s: LoopSession, q: LoopSession, r: LoopSession): seq<Shared> {
    RaceStates(s, q, r)[..5] + [Three(EMPTY, 11), Three(Remove(EMPTY, s), 11)]
  }

  lemma LateStep(s: LoopSession, q: LoopSession, r: LoopSession, i: nat)
    requires Scenario(s, q, r) && i < 6
    ensures var g, c := LateStates(s, q, r)[i], LateSections(s, q, r)[i];
            Enabled(g, c) && LateStates(s, q, r)[i + 1] == Perform(g, c) && KernelSide(g, c)
  {
    if i < 4 {
      RaceStep(s, q, r, i);
      RaceKernelSide(s, q, r, i);
    } else if i == 4 {
      NodeDown(Add(Add(EMPTY, q), r), 11);
    }
  }

  lemma LateRollsBack(s: LoopSession, q: LoopSession, r: LoopSession)
    requires Scenario(s, q, r)
    ensures RollsBack(LateStates(s, q, r), LateSections(s, q, r), 0, 5)
  {
    RecordOnThree(EMPTY, 10, s);
  }

  lemma LateOrdered(s: LoopSession, q: LoopSession, r: LoopSession)
    requires Scenario(s, q, r)
    ensures OrderedRun(LateStates(s, q, r), LateSections(s, q, r))
  {
    var gs, cs := LateStates(s, q, r), LateSections(s, q, r);
    forall i | 0 <= i < |cs|
      ensures Enabled(gs[i], cs[i]) && gs[i + 1] == Perform(gs[i], cs[i]) && KernelSide(gs[i], cs[i])
    {
      LateStep(s, q, r, i);
    }
    LateRollsBack(s, q, r);
  }

  /** That the other call is still live matters: if node 1 goes down once more before the
      rollback, the LCI was reassigned in between all the same, and the rollback harms nobody. */
  lemma LateRollbackHarmless(s: LoopSession, q: LoopSession, r: LoopSession)
    requires Scenario(s, q, r)
    ensures var gs, cs := LateStates(s, q, r), LateSections(s, q, r);
            && OrderedRun(gs, cs) && RollsBack(gs, cs, 0, 5) && RecordsAt(gs, cs, 3, r, SideB(s))
            && forall i :: 0 <= i <= 6 ==> Consistent(gs[i].t)
  {
    LateOrdered(s, q, r);
    LateRollsBack(s, q, r);
    RecordOnThree(Add(EMPTY, q), 10, r);
    assert forall e :: !Live(EMPTY, e);
    OrderedRunConsistentIff(LateStates(s, q, r), LateSections(s, q, r), 6);
  }
}

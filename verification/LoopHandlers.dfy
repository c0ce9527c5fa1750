/** The loopback relay's handlers as they change the nodes and the session manager in place.
    Each does exactly what LoopRelay specifies for some allowed choice. */
module LoopHandlers {
  import opened Wire
  import opened RoundRobin
  import opened LoopTable
  import opened LoopRelay
  import opened LoopManager
  import opened TunFrames
  import CallRequest
  import Routing

  class TunNode {
    const address: string
    const lciStart: uint16
    const lciEnd: uint16
    var nextLCI: uint16
    var linkState: Link
    // every frame handed to the device so far
    var sent: seq<Frame>

    ghost predicate InRange()
      reads this
    {
      1 <= lciStart <= nextLCI <= lciEnd <= 4095
    }

    function Ring(): Ring
      reads this
    {
      RoundRobin.Ring(lciStart as nat, if lciStart <= lciEnd then lciEnd as nat - lciStart as nat + 1 else 0, nextLCI as nat)
    }

    constructor (address: string, lciStart: uint16, lciEnd: uint16)
      requires 1 <= lciStart <= lciEnd <= 4095
      ensures InRange() && this.address == address && nextLCI == lciStart && linkState == Down && sent == []
      ensures this.lciStart == lciStart && this.lciEnd == lciEnd
    {
      this.address, this.lciStart, this.lciEnd, nextLCI := address, lciStart, lciEnd, lciStart;
      linkState, sent := Down, [];
    }

    /** The scan on 16-bit arithmetic takes the LCI that the ring picks and moves the cursor
        past it; if there is none the cursor stays. */
    method AllocRelayLCI(inUse: set<nat>) returns (r: Option<nat>)
      requires InRange()
      modifies this`nextLCI
      ensures InRange() && r == Pick(old(Ring()), inUse)
      ensures Ring() == if r.Some? && old(Ring()).Has(r.value) then old(Ring()).After(r.value) else old(Ring())
      ensures r.Some? ==> Ring().Has(r.value)
    {
      ghost var ring := Ring();
      var rangeSize := lciEnd - lciStart + 1;
      var i: uint16 := 0;
      while i < rangeSize
        invariant i <= rangeSize && nextLCI == old(nextLCI)
        invariant Pick(ring, inUse) == Scan(ring, inUse, i as nat)
      {
        AtDistance(ring, i as nat);
        var lci := lciStart + (nextLCI - lciStart + i) % rangeSize;
        assert lci as nat == ring.At(i as nat);
        if lci as nat !in inUse {
          AfterCursor(ring, lci as nat);
          nextLCI := lciStart + (lci - lciStart + 1) % rangeSize;
          return Some(lci as nat);
        }
        i := i + 1;
      }
      return None;
    }

    // A write may fail, which only the CALL_REQUEST path notices.
    method WriteFrame(f: Frame) returns (ok: bool)
      modifies this`sent
      ensures sent == old(sent) + [f]
    {
      sent := sent + [f];
      ok := *;
    }
  }

  class Relay {
    const nodes: seq<TunNode>
    const sm: Manager

    ghost predicate Valid()
      reads this, nodes, sm, sm.slots
    {
      && sm.Valid() && sm.slots.Length0 == |nodes|
      && (forall i :: 0 <= i < |nodes| ==> nodes[i].InRange())
      && (forall i, j :: 0 <= i < j < |nodes| ==> nodes[i] != nodes[j])
    }

    ghost function View(): (g: Loop)
      reads this, nodes, sm, sm.slots
      ensures |g.rings| == |g.links| == |g.sent| == |nodes|
      ensures forall i :: 0 <= i < |nodes| ==>
                            g.rings[i] == nodes[i].Ring() && g.links[i] == nodes[i].linkState && g.sent[i] == nodes[i].sent
    {
      Loop(sm.table,
           seq(|nodes|, i requires 0 <= i < |nodes| reads this, nodes => nodes[i].Ring()),
           seq(|nodes|, i requires 0 <= i < |nodes| reads this, nodes => nodes[i].linkState),
           seq(|nodes|, i requires 0 <= i < |nodes| reads this, nodes => nodes[i].sent))
    }

    /** One node per configured route, all with the same relay LCI range; then a Connect on
        every one of them. */
    constructor (routes: seq<string>, lciStart: uint16, lciEnd: uint16)
      requires 1 <= lciStart <= lciEnd <= 4095
      ensures Valid() && Addresses() == routes && Init(View())
      ensures forall i :: 0 <= i < |nodes| ==> nodes[i].lciStart == lciStart && nodes[i].lciEnd == lciEnd
    {
      var all: seq<TunNode> := [];
      for i := 0 to |routes|
        invariant |all| == i && forall k :: 0 <= k < i ==> fresh(all[k]) && Started(all[k], routes[k], lciStart, lciEnd)
        invariant forall k :: 0 <= k < i ==> all[k].linkState == Down && all[k].sent == []
        invariant forall j, k :: 0 <= j < k < i ==> all[j] != all[k]
      {
        var node := new TunNode(routes[i], lciStart, lciEnd);
        all := all + [node];
      }
      for i := 0 to |all|
        invariant forall k :: 0 <= k < |all| ==> Started(all[k], routes[k], lciStart, lciEnd)
        invariant forall k :: i <= k < |all| ==> all[k].linkState == Down && all[k].sent == []
        invariant forall k :: 0 <= k < i ==> all[k].linkState == Connecting && all[k].sent == [Frame(HEADER_CONNECT, [])]
      {
        var _ := all[i].WriteFrame(Frame(HEADER_CONNECT, []));
        all[i].linkState := Connecting;
      }
      nodes := all;
      sm := new Manager(|routes|);
    }

    static ghost predicate Started(n: TunNode, route: string, lciStart: uint16, lciEnd: uint16)
      reads n
    {
      n.InRange() && n.address == route && n.lciStart == lciStart && n.lciEnd == lciEnd
    }

    function Addresses(): seq<string> {
      seq(|nodes|, i requires 0 <= i < |nodes| => nodes[i].address)
    }

    method Write(n: nat, f: Frame) returns (ok: bool)
      requires Valid() && n < |nodes|
      modifies nodes[n]
      ensures Valid() && View() == old(View()).(sent := SendTo(old(View()).sent, n, f))
    {
      ok := nodes[n].WriteFrame(f);
    }

    method SetLink(n: nat, link: Link)
      requires Valid() && n < |nodes|
      modifies nodes[n]
      ensures Valid() && View() == old(View()).(links := old(View()).links[n := link])
    {
      nodes[n].linkState := link;
    }

    // Rewrite the header in place and hand the packet to a node.
    method SendRelabeled(n: nat, payload: array<byte>, lci: Lci) returns (ok: bool)
      requires Valid() && n < |nodes| && payload.Length >= 2
      modifies nodes[n], payload
      ensures Valid()
      ensures View() == old(View()).(sent := SendTo(old(View()).sent, n, Frame(HEADER_DATA, Relabel(old(payload[..]), lci))))
    {
      RewriteLci(payload, lci);
      ok := Write(n, Frame(HEADER_DATA, payload[..]));
    }

    method SendClear(n: nat, gfi: byte, lci: Lci, cause: byte)
      requires Valid() && n < |nodes|
      modifies nodes[n]
      ensures Valid() && View() == old(View()).(sent := SendTo(old(View()).sent, n, Clear(gfi, lci, cause)))
    {
      var _ := Write(n, Frame(HEADER_DATA, ClearRequest(gfi, lci, cause, 0)));
    }

    // ---- the table, seen through the relay ----

    method Lookup(n: nat, lci: Lci) returns (s: LoopSession?)
      requires Valid() && n < |nodes|
      ensures s == Manager.At(View().t, n, lci)
      ensures s != null ==> s.tunA < |nodes| && s.tunB < |nodes|
    {
      s := sm.Get(n, lci);
    }

    method Drop(s: LoopSession)
      requires Valid() && s.tunA < |nodes| && s.tunB < |nodes|
      modifies sm, sm.slots
      ensures Valid() && View() == old(View()).(t := Remove(old(View()).t, s))
    {
      sm.Remove(s);
    }

    method Record(s: LoopSession)
      requires Valid() && s.tunA < |nodes| && s.tunB < |nodes|
      modifies sm, sm.slots
      ensures Valid() && View() == old(View()).(t := Add(old(View()).t, s))
    {
      sm.Add(s);
    }

    method DropAll(n: nat) returns (dead: seq<LoopSession>)
      requires Valid()
      modifies sm, sm.slots
      ensures Valid() && Lists(dead, old(View()).t, n) && InRelay(old(View()), dead)
      ensures View() == old(View()).(t := Cleared(old(View()).t, dead))
    {
      dead := sm.RemoveAllForNode(n);
    }

    method Reserve(dst: nat) returns (r: Option<nat>)
      requires Valid() && dst < |nodes|
      modifies nodes[dst]
      ensures Valid()
      ensures var g := old(View());
              && g.rings[dst].Valid() && r == Pick(g.rings[dst], UsedOn(g.t, dst))
              && (r.Some? ==> g.rings[dst].Has(r.value) && r.value < 4096)
              && View() == if r.Some? then g.(rings := g.rings[dst := g.rings[dst].After(r.value)]) else g
    {
      ghost var g := View();
      assert sm.usedLCI[dst] == UsedOn(sm.table, dst) by {
        forall x: nat ensures x in sm.usedLCI[dst] <==> x in UsedOn(sm.table, dst) {
          assert x in UsedOn(sm.table, dst) <==> Endpoint(dst, x) in sm.table.used;
        }
      }
      PickIsNearestFree(g.rings[dst], UsedOn(g.t, dst));
      r := nodes[dst].AllocRelayLCI(sm.usedLCI[dst]);
      assert View().rings == if r.Some? then g.rings[dst := g.rings[dst].After(r.value)] else g.rings;
    }

    // ---- the handlers ----

    method ClearAllForNode(n: nat) returns (dead: seq<LoopSession>)
      requires Valid() && n < |nodes|
      modifies nodes, sm, sm.slots
      ensures Valid() && Lists(dead, old(View()).t, n) && InRelay(old(View()), dead)
      ensures View() == ClearAll(old(View()), n, dead)
    {
      dead := DropAll(n);
      SendAll(n, dead);
    }

    method SendAll(n: nat, dead: seq<LoopSession>)
      requires Valid() && InRelay(View(), dead)
      modifies nodes
      ensures Valid() && View() == old(View()).(sent := SendClears(old(View()).sent, n, dead))
    {
      ghost var before := View();
      for i := 0 to |dead|
        invariant Valid() && View() == before.(sent := SendClears(before.sent, n, dead[..i]))
      {
        assert dead[..i + 1][..i] == dead[..i];
        ClearOtherEnd(dead[i], n);
      }
      assert dead[..|dead|] == dead;
    }

    method ClearOtherEnd(s: LoopSession, n: nat)
      requires Valid() && s.tunA < |nodes| && s.tunB < |nodes|
      modifies nodes
      ensures Valid()
      ensures var lci: Lci := if s.tunA == n then s.lciB else s.lciA;
              View() == old(View()).(sent := SendTo(old(View()).sent, OtherEnd(s, n).node,
                                                    Clear(s.gfi, lci, CAUSE_NETWORK_CONGESTION)))
    {
      if s.tunA == n {
        SendClear(s.tunB, s.gfi, s.lciB, CAUSE_NETWORK_CONGESTION);
      } else {
        SendClear(s.tunA, s.gfi, s.lciA, CAUSE_NETWORK_CONGESTION);
      }
    }

    method HandleConnect(n: nat)
      requires Valid() && n < |nodes|
      modifies nodes[n]
      ensures Valid() && View() == OnConnect(old(View()), n)
    {
      if nodes[n].linkState != Operational {
        var _ := Write(n, Frame(HEADER_CONNECT, []));
        if nodes[n].linkState == Down {
          SetLink(n, Connecting);
        }
        assert View().links == old(View()).links[n := Connecting];
      }
    }

    method HandleRestart(n: nat, payload: seq<byte>) returns (dead: seq<LoopSession>)
      requires Valid() && n < |nodes| && payload != []
      modifies nodes, sm, sm.slots
      ensures Valid()
      ensures var g := old(View());
              if g.links[n] == Operational
              then Lists(dead, g.t, n) && InRelay(g, dead) && View() == OnRestart(ClearAll(g, n, dead), n, payload)
              else View() == OnRestart(g, n, payload)
    {
      dead := [];
      if nodes[n].linkState == Operational {
        dead := ClearAllForNode(n);
      }
      var _ := Write(n, Frame(HEADER_DATA, [payload[0] / 16 * 16, 0, RESTART_CONFIRM]));
      SetLink(n, Operational);
    }

    method EvictStale(n: nat, lci: Lci)
      requires Valid() && n < |nodes|
      modifies sm, sm.slots
      ensures Valid() && View() == old(View()).(t := Evict(old(View()).t, Endpoint(n, lci)))
    {
      var stale := Lookup(n, lci);
      if stale != null {
        Drop(stale);
      }
    }

    // The critical section of a call: evict a stale call, allocate, record.
    method RecordCall(n: nat, gfi: byte, lci: Lci, dst: nat) returns (s: Option<LoopSession>)
      requires Valid() && n < |nodes| && dst < |nodes|
      modifies nodes[dst], sm, sm.slots
      ensures Valid()
      ensures s.Some? ==> fresh(s.value)
      ensures var g := old(View()); var t := Evict(g.t, Endpoint(n, lci));
              match s
              case None => Pick(g.rings[dst], UsedOn(t, dst)).None? && View() == g.(t := t)
              case Some(s) =>
                && s.gfi == NegotiateGFI(gfi) && s.tunA == n && s.lciA == lci && s.tunB == dst
                && Records(Shared(g.t, g.rings), s)
                && View() == g.(t := Add(t, s), rings := g.rings[dst := g.rings[dst].After(s.lciB)])
    {
      ghost var g := View();
      EvictStale(n, lci);
      var lciB := Reserve(dst);
      if lciB.None? {
        return None;
      }
      var created := Create(n, gfi, lci, dst, lciB.value);
      ReservedRecords(g, n, lci, created);
      return Some(created);
    }

    method Create(n: nat, gfi: byte, lci: Lci, dst: nat, lciB: Lci) returns (s: LoopSession)
      requires Valid() && n < |nodes| && dst < |nodes|
      modifies sm, sm.slots
      ensures fresh(s) && Valid() && View() == old(View()).(t := Add(old(View()).t, s))
      ensures s.gfi == NegotiateGFI(gfi) && s.tunA == n && s.lciA == lci && s.tunB == dst && s.lciB == lciB
    {
      s := new LoopSession(NegotiateGFI(gfi), n, lci, dst, lciB);
      Record(s);
    }

    static lemma ReservedRecords(g: Loop, n: nat, lci: Lci, s: LoopSession)
      requires s.tunA == n && s.lciA == lci && s.tunB < |g.rings| && g.rings[s.tunB].Valid()
      requires g.rings[s.tunB].Has(s.lciB)
      requires Pick(g.rings[s.tunB], UsedOn(Evict(g.t, Endpoint(n, lci)), s.tunB)) == Some(s.lciB)
      ensures Records(Shared(g.t, g.rings), s)
    {
      assert SideA(s) == Endpoint(n, lci);
    }

    // Parse, route and look at the destination's link.
    method DecideCall(data: seq<byte>) returns (v: Verdict)
      requires Valid()
      ensures v == CallVerdict(Addresses(), View().links, data)
    {
      var pkt := ParseX25(data);
      if pkt.None? {
        return Refuse(CAUSE_LOCAL_PROCEDURE_ERROR);
      }
      var parsed := CallRequest.ParseCallPacket(pkt.value, CALL_REQUEST);
      if parsed.Err? {
        return Refuse(CAUSE_LOCAL_PROCEDURE_ERROR);
      }
      var dst := Routing.FindNode(Addresses(), parsed.value.called);
      if dst.None? || nodes[dst.value].linkState != Operational {
        return Refuse(CAUSE_NETWORK_CONGESTION);
      }
      return Forward(dst.value);
    }

    method PlaceCall(n: nat, payload: array<byte>, dst: nat) returns (created: Option<LoopSession>, written: bool)
      requires Valid() && n < |nodes| && dst < |nodes| && payload.Length >= 3
      modifies nodes, sm, sm.slots, payload
      ensures Valid()
      ensures var g, data := old(View()), old(payload[..]);
              && g.rings[dst].Valid()
              && (created.Some? ==> Creates(g, n, data, dst, created.value))
              && (created.None? ==> Pick(g.rings[dst], UsedOn(Evict(g.t, Endpoint(n, GetLCI(data))), dst)).None?)
              && View() == ForwardCall(g, n, data, dst, created, written)
    {
      ghost var g := View();
      var gfi, lci := GetGFI(payload[..]), GetLCI(payload[..]);
      created := RecordCall(n, gfi, lci, dst);
      written := false;
      if created.None? {
        SendClear(n, gfi, lci, CAUSE_NETWORK_CONGESTION);
        return;
      }
      var s := created.value;
      written := SendRelabeled(dst, payload, s.lciB);
      if !written {
        Drop(s);
        SendClear(n, gfi, lci, CAUSE_NETWORK_CONGESTION);
      }
    }

    method HandleCallRequest(n: nat, payload: array<byte>) returns (c: Choice)
      requires Valid() && n < |nodes|
      modifies nodes, sm, sm.slots, payload
      ensures Valid() && CallAllowed(old(View()), Addresses(), n, old(payload[..]), c)
      ensures View() == OnCall(old(View()), Addresses(), n, old(payload[..]), c)
    {
      var v := DecideCall(payload[..]);
      c := Choice([], None, true);
      match v {
        case Refuse(cause) => SendClear(n, GetGFI(payload[..]), GetLCI(payload[..]), cause);
        case Forward(dst) =>
          var created, written := PlaceCall(n, payload, dst);
          c := Choice([], created, written);
      }
    }

    method ForwardPacket(n: nat, payload: array<byte>)
      requires Valid() && n < |nodes| && Readable(View(), n, payload[..])
      modifies nodes, sm, sm.slots, payload
      ensures Valid()
      ensures InRelayTable(old(View())) && View() == OnPacket(old(View()), n, old(payload[..]))
    {
      var lci, ptype := GetLCI(payload[..]), GetType(payload[..]);
      var s := Lookup(n, lci);
      if s == null {
        if ptype != CLEAR_REQUEST && ptype != CLEAR_CONFIRM && lci != 0 {
          SendClear(n, GetGFI(payload[..]), lci, CAUSE_NETWORK_CONGESTION);
        }
        return;
      }
      var peer, peerLci := s.tunA, s.lciA;
      if s.tunA == n && s.lciA == lci {
        peer, peerLci := s.tunB, s.lciB;
      }
      if ptype == CLEAR_CONFIRM {
        DropIfCurrent(n, lci, s);
      }
      var _ := SendRelabeled(peer, payload, peerLci);
    }

    // The guard against removing a call that has replaced s meanwhile.
    method DropIfCurrent(n: nat, lci: Lci, s: LoopSession)
      requires Valid() && n < |nodes| && s.tunA < |nodes| && s.tunB < |nodes|
      modifies sm, sm.slots
      ensures Valid()
      ensures var g := old(View());
              View() == if Holds(g.t, Endpoint(n, lci), s) then g.(t := Remove(g.t, s)) else g
    {
      var current := Lookup(n, lci);
      if current == s {
        Drop(s);
      }
    }

    /** One pass of the reader loop on a frame from the device. */
    method HandleFrame(n: nat, hdr: byte, payload: array<byte>) returns (c: Choice)
      requires Valid() && n < |nodes| && (payload.Length == 0 || Readable(View(), n, payload[..]))
      modifies nodes, sm, sm.slots, payload
      ensures Valid() && Allowed(old(View()), Addresses(), Arrival(n, hdr, old(payload[..])), c)
      ensures View() == Handle(old(View()), Addresses(), Arrival(n, hdr, old(payload[..])), c)
    {
      c := Choice([], None, true);
      var data := payload[..];
      if payload.Length == 0 {
        if hdr == HEADER_CONNECT {
          HandleConnect(n);
        } else if hdr == HEADER_DISCONNECT {
          SetLink(n, Down);
          var dead := ClearAllForNode(n);
          c := Choice(dead, None, true);
        }
      } else if GetType(data) == RESTART_REQUEST {
        var dead := HandleRestart(n, data);
        c := Choice(dead, None, true);
      } else if nodes[n].linkState == Operational {
        if GetType(data) == CALL_REQUEST {
          c := HandleCallRequest(n, payload);
        } else {
          ForwardPacket(n, payload);
        }
      }
    }
  }
}

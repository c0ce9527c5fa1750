/** The tun-loopback relay: what each node's reader does with a frame, over the shared table,
    and what whole runs of these handlers keep when each runs without interference. */
module LoopRelay {
  import opened Wire
  import opened RoundRobin
  import opened LoopTable
  import opened TunFrames
  import CallRequest
  import Routing

  // Every frame handed to each node's device so far, in order, whether or not it accepts it.
  type Sent = seq<seq<Frame>>

  datatype Loop = Loop(t: Table, rings: seq<Ring>, links: seq<Link>, sent: Sent)

  function SendTo(sent: Sent, n: nat, f: Frame): Sent
    requires n < |sent|
  {
    sent[n := sent[n] + [f]]
  }

  function Clear(gfi: byte, lci: Lci, cause: byte): Frame {
    Frame(HEADER_DATA, ClearRequest(gfi, lci, cause, 0))
  }

  // ---- tearing a node down ----

  function OtherEnd(s: LoopSession, n: nat): Endpoint {
    if s.tunA == n then SideB(s) else SideA(s)
  }

  // One CLEAR_REQUEST for each removed call, to the end that is not on n.
  function SendClears(sent: Sent, n: nat, dead: seq<LoopSession>): (r: Sent)
    requires forall s :: s in dead ==> OtherEnd(s, n).node < |sent|
    ensures |r| == |sent|
  {
    if dead == [] then sent
    else
      var s := dead[|dead| - 1];
      var lci: Lci := if s.tunA == n then s.lciB else s.lciA;
      SendTo(SendClears(sent, n, dead[..|dead| - 1]), OtherEnd(s, n).node,
             Clear(s.gfi, lci, CAUSE_NETWORK_CONGESTION))
  }

  /** dead lists the calls touching n, each once; a map's iteration picks the order. */
  ghost predicate Lists(dead: seq<LoopSession>, t: Table, n: nat) {
    && (forall i, j :: 0 <= i < j < |dead| ==> dead[i] != dead[j])
    && (forall s :: s in dead ==> s in t.slots.Values && Touches(s, n))
    && (forall e :: e in t.slots && Touches(t.slots[e], n) ==> t.slots[e] in dead)
  }

  // The table after removing the listed calls one by one.
  function Cleared(t: Table, dead: seq<LoopSession>): Table {
    if dead == [] then t else Remove(Cleared(t, dead[..|dead| - 1]), dead[|dead| - 1])
  }

  lemma {:induction false} ClearedAt(t: Table, dead: seq<LoopSession>)
    ensures forall e :: e in Cleared(t, dead).slots <==>
                          e in t.slots && forall s :: s in dead ==> e != SideA(s) && e != SideB(s)
    ensures forall e :: e in Cleared(t, dead).slots ==> Cleared(t, dead).slots[e] == t.slots[e]
    ensures forall e :: e in Cleared(t, dead).used <==> e in t.used && forall s :: s in dead ==> e != SideB(s)
  {
    if dead != [] {
      ClearedAt(t, dead[..|dead| - 1]);
      assert dead == dead[..|dead| - 1] + [dead[|dead| - 1]];
    }
  }

  // A slot belongs to a listed call exactly when its own call touches the node.
  lemma DeadAt(t: Table, dead: seq<LoopSession>, n: nat, e: Endpoint)
    requires Consistent(t) && Lists(dead, t, n) && e in t.slots
    ensures Touches(t.slots[e], n) <==> exists s :: s in dead && (e == SideA(s) || e == SideB(s))
    ensures e in t.used ==> (Touches(t.slots[e], n) <==> exists s :: s in dead && e == SideB(s))
  {
    assert InPlace(t, e, t.slots[e]);
    forall s | s in dead && (e == SideA(s) || e == SideB(s)) ensures s == t.slots[e] {
      DeadInPlace(t, dead, n, s);
    }
  }

  /** Removing the listed calls one by one, in any order, removes the node exactly. */
  lemma ClearedIsRemoveNode(t: Table, dead: seq<LoopSession>, n: nat)
    requires Consistent(t) && Lists(dead, t, n)
    ensures Cleared(t, dead) == RemoveNode(t, n)
  {
    ClearedAt(t, dead);
    forall e | e in t.slots
      ensures e in Cleared(t, dead).slots <==> e in RemoveNode(t, n).slots
      ensures e in Cleared(t, dead).used <==> e in RemoveNode(t, n).used
    {
      DeadAt(t, dead, n, e);
    }
    assert Cleared(t, dead).slots == RemoveNode(t, n).slots;
    assert Cleared(t, dead).used == RemoveNode(t, n).used;
  }

  lemma DeadInPlace(t: Table, dead: seq<LoopSession>, n: nat, s: LoopSession)
    requires Consistent(t) && Lists(dead, t, n) && s in dead
    ensures InPlace(t, SideA(s), s) && InPlace(t, SideB(s), s)
  {
    var e :| e in t.slots && t.slots[e] == s;
    assert InPlace(t, e, t.slots[e]);
  }

  /** Teardown sends exactly one CLEAR per call touching n: the cleared endpoints are
      distinct, each was the peer of an endpoint on n, and each such call has one. */
  lemma ClearTargets(t: Table, dead: seq<LoopSession>, n: nat)
    requires Consistent(t) && Lists(dead, t, n)
    ensures forall i, j :: 0 <= i < j < |dead| ==> OtherEnd(dead[i], n) != OtherEnd(dead[j], n)
    ensures forall s :: s in dead ==>
              var e := OtherEnd(s, n); e in t.slots && t.slots[e] == s && Peer(t, e).node == n
    ensures forall s :: s in dead && OneEnd(s, n) ==> OtherEnd(s, n).node != n
  {
    forall s | s in dead ensures var e := OtherEnd(s, n); e in t.slots && t.slots[e] == s && Peer(t, e).node == n {
      DeadInPlace(t, dead, n, s);
    }
  }

  // The LCIs cleared on node m, in the order of the list.
  function EndsAt(dead: seq<LoopSession>, n: nat, m: nat): seq<nat> {
    if dead == [] then []
    else
      var e := OtherEnd(dead[|dead| - 1], n);
      EndsAt(dead[..|dead| - 1], n, m) + if e.node == m then [e.lci] else []
  }

  ghost predicate ClearOf(f: Frame, lci: nat) {
    f.hdr == HEADER_DATA && GetType(f.data) == CLEAR_REQUEST && GetLCI(f.data) == lci
  }

  /** What a teardown hands to node m is one CLEAR_REQUEST for each of these LCIs, in order,
      after everything sent before. */
  lemma {:induction false} ClearsSent(sent: Sent, n: nat, dead: seq<LoopSession>, m: nat)
    requires m < |sent| && forall s :: s in dead ==> OtherEnd(s, n).node < |sent|
    ensures var log, lcis := SendClears(sent, n, dead)[m], EndsAt(dead, n, m);
            && |log| == |sent[m]| + |lcis| && log[..|sent[m]|] == sent[m]
            && forall i :: 0 <= i < |lcis| ==> ClearOf(log[|sent[m]| + i], lcis[i])
  {
    if dead != [] {
      var s := dead[|dead| - 1];
      ClearsSent(sent, n, dead[..|dead| - 1], m);
      HeaderByte(s.gfi, s.lciA);
      HeaderByte(s.gfi, s.lciB);
    }
  }

  /** No LCI is cleared twice on a node, and those cleared are exactly the other ends of the
      calls that were removed. */
  lemma {:induction false} EndsAtOnce(dead: seq<LoopSession>, n: nat, m: nat)
    requires forall i, j :: 0 <= i < j < |dead| ==> OtherEnd(dead[i], n) != OtherEnd(dead[j], n)
    ensures var lcis := EndsAt(dead, n, m);
            && (forall i, j :: 0 <= i < j < |lcis| ==> lcis[i] != lcis[j])
            && (forall lci :: lci in lcis <==> EndsOn(dead, n, Endpoint(m, lci)))
  {
    if dead != [] {
      var init, s := dead[..|dead| - 1], dead[|dead| - 1];
      assert dead == init + [s];
      EndsAtOnce(init, n, m);
      assert forall r :: r in init ==> OtherEnd(r, n) != OtherEnd(s, n);
      forall lci: nat ensures EndsOn(dead, n, Endpoint(m, lci)) <==>
                              EndsOn(init, n, Endpoint(m, lci)) || OtherEnd(s, n) == Endpoint(m, lci) {
      }
      assert OtherEnd(s, n).node == m ==> !EndsOn(init, n, Endpoint(m, OtherEnd(s, n).lci));
    }
  }

  ghost predicate EndsOn(dead: seq<LoopSession>, n: nat, e: Endpoint) {
    exists s :: s in dead && OtherEnd(s, n) == e
  }

  /** A teardown hands every node m, after everything sent before, one CLEAR_REQUEST for each
      live call between n and m, under that call's LCI on m, and nothing else: no call is
      cleared twice and none is left out. */
  lemma TeardownClearsOnce(sent: Sent, t: Table, n: nat, dead: seq<LoopSession>, m: nat)
    requires Consistent(t) && Lists(dead, t, n) && m < |sent|
    requires forall s :: s in dead ==> OtherEnd(s, n).node < |sent|
    ensures var log, lcis := SendClears(sent, n, dead)[m], EndsAt(dead, n, m);
            && |log| == |sent[m]| + |lcis| && log[..|sent[m]|] == sent[m]
            && (forall i :: 0 <= i < |lcis| ==> ClearOf(log[|sent[m]| + i], lcis[i]))
            && (forall i, j :: 0 <= i < j < |lcis| ==> lcis[i] != lcis[j])
            && (forall lci :: lci in lcis <==> IsOtherEnd(t, n, Endpoint(m, lci)))
  {
    ClearsSent(sent, n, dead, m);
    ClearTargets(t, dead, n);
    EndsAtOnce(dead, n, m);
    forall e ensures EndsOn(dead, n, e) <==> IsOtherEnd(t, n, e) {
      EndsOnIff(t, dead, n, e);
    }
  }

  // e is live, and its call is cleared there when n goes down.
  predicate IsOtherEnd(t: Table, n: nat, e: Endpoint) {
    e in t.slots && Touches(t.slots[e], n) && OtherEnd(t.slots[e], n) == e
  }

  lemma EndsOnIff(t: Table, dead: seq<LoopSession>, n: nat, e: Endpoint)
    requires Consistent(t) && Lists(dead, t, n)
    ensures EndsOn(dead, n, e) <==> IsOtherEnd(t, n, e)
  {
    if EndsOn(dead, n, e) {
      var s :| s in dead && OtherEnd(s, n) == e;
      DeadInPlace(t, dead, n, s);
    }
  }

  // The call has only one end on n.
  predicate OneEnd(s: LoopSession, n: nat) {
    s.tunA != n || s.tunB != n
  }

  // ---- what a reader does with one frame ----

  // The choices of one handler run: the order a teardown lists its calls in, the session a
  // CALL_REQUEST creates, and whether the device accepts the forwarded CALL_REQUEST.
  datatype Choice = Choice(dead: seq<LoopSession>, created: Option<LoopSession>, written: bool)

  function ClearAll(g: Loop, n: nat, dead: seq<LoopSession>): Loop
    requires forall s :: s in dead ==> OtherEnd(s, n).node < |g.sent|
  {
    g.(t := Cleared(g.t, dead), sent := SendClears(g.sent, n, dead))
  }

  predicate Shaped(g: Loop, n: nat) {
    n < |g.rings| && |g.rings| == |g.links| == |g.sent|
  }

  // A listed call is between nodes of this relay.
  predicate InRelay(g: Loop, dead: seq<LoopSession>) {
    forall s :: s in dead ==> s.tunA < |g.sent| && s.tunB < |g.sent|
  }

  function OnConnect(g: Loop, n: nat): Loop
    requires Shaped(g, n)
  {
    if g.links[n] == Operational then g
    else g.(sent := SendTo(g.sent, n, Frame(HEADER_CONNECT, [])), links := g.links[n := Connecting])
  }

  function OnDisconnect(g: Loop, n: nat, dead: seq<LoopSession>): Loop
    requires Shaped(g, n) && InRelay(g, dead)
  {
    ClearAll(g.(links := g.links[n := Down]), n, dead)
  }

  // A restart of an operational link clears the node's calls first.
  function OnRestart(g: Loop, n: nat, payload: seq<byte>): Loop
    requires Shaped(g, n) && payload != []
  {
    g.(sent := SendTo(g.sent, n, Frame(HEADER_DATA, [payload[0] / 16 * 16, 0, RESTART_CONFIRM])),
       links := g.links[n := Operational])
  }

  // Where a CALL_REQUEST goes, or the cause it is refused with.
  datatype Verdict = Refuse(cause: byte) | Forward(dst: nat)

  function CallVerdict(addrs: seq<string>, links: seq<Link>, payload: seq<byte>): (v: Verdict)
    requires |addrs| == |links|
    ensures v.Forward? ==> v.dst < |links| && links[v.dst] == Operational && |payload| >= 3
  {
    match ParseX25(payload)
    case None => Refuse(CAUSE_LOCAL_PROCEDURE_ERROR)
    case Some(p) =>
      match CallRequest.ParseCall(p, CALL_REQUEST)
      case Err(_) => Refuse(CAUSE_LOCAL_PROCEDURE_ERROR)
      case Ok(fields) =>
        match Routing.Route(Routing.Addresses(addrs), fields.called)
        case None => Refuse(CAUSE_NETWORK_CONGESTION)
        case Some(dst) => if links[dst] == Operational then Forward(dst) else Refuse(CAUSE_NETWORK_CONGESTION)
  }

  function RefuseCall(g: Loop, n: nat, payload: seq<byte>, cause: byte): Loop
    requires Shaped(g, n)
  {
    g.(sent := SendTo(g.sent, n, Clear(GetGFI(payload), GetLCI(payload), cause)))
  }

  // The call that a forwarded CALL_REQUEST records once its destination LCI is allocated.
  predicate Creates(g: Loop, n: nat, payload: seq<byte>, dst: nat, s: LoopSession) {
    && s.gfi == NegotiateGFI(GetGFI(payload))
    && s.tunA == n && s.lciA == GetLCI(payload) && s.tunB == dst
    && Records(Shared(g.t, g.rings), s)
  }

  function ForwardCall(g: Loop, n: nat, payload: seq<byte>, dst: nat, created: Option<LoopSession>, written: bool): Loop
    requires Shaped(g, n) && dst < |g.rings| && |payload| >= 3
    requires created.Some? ==> Creates(g, n, payload, dst, created.value)
  {
    var t := Evict(g.t, Endpoint(n, GetLCI(payload)));
    match created
    case None => RefuseCall(g.(t := t), n, payload, CAUSE_NETWORK_CONGESTION)
    case Some(s) =>
      var g1 := Loop(Add(t, s), g.rings[dst := g.rings[dst].After(s.lciB)], g.links,
                     SendTo(g.sent, dst, Frame(HEADER_DATA, Relabel(payload, s.lciB))));
      if written then g1
      else RefuseCall(g1.(t := Remove(g1.t, s)), n, payload, CAUSE_NETWORK_CONGESTION)
  }

  function OnCall(g: Loop, addrs: seq<string>, n: nat, payload: seq<byte>, c: Choice): Loop
    requires Shaped(g, n) && |addrs| == |g.links| && CallAllowed(g, addrs, n, payload, c)
  {
    match CallVerdict(addrs, g.links, payload)
    case Refuse(cause) => RefuseCall(g, n, payload, cause)
    case Forward(dst) => ForwardCall(g, n, payload, dst, c.created, c.written)
  }

  // What a free LCI on the destination means for a forwarded call.
  predicate CallAllowed(g: Loop, addrs: seq<string>, n: nat, payload: seq<byte>, c: Choice)
    requires Shaped(g, n) && |addrs| == |g.links|
  {
    match CallVerdict(addrs, g.links, payload)
    case Refuse(_) => true
    case Forward(dst) =>
      && g.rings[dst].Valid()
      && match c.created
         case Some(s) => Creates(g, n, payload, dst, s)
         case None => Pick(g.rings[dst], UsedOn(Evict(g.t, Endpoint(n, GetLCI(payload))), dst)).None?
  }

  function OnPacket(g: Loop, n: nat, payload: seq<byte>): Loop
    requires Shaped(g, n) && Readable(g, n, payload) && InRelayTable(g)
  {
    var e := Endpoint(n, GetLCI(payload));
    var ptype := GetType(payload);
    if e !in g.t.slots then
      if !IsClear(ptype) && e.lci != 0
      then g.(sent := SendTo(g.sent, n, Clear(GetGFI(payload), e.lci, CAUSE_NETWORK_CONGESTION))) else g
    else
      var s := g.t.slots[e];
      var lci: Lci := if s.tunA == n && s.lciA == e.lci then s.lciB else s.lciA;
      g.(t := if ptype == CLEAR_CONFIRM then Remove(g.t, s) else g.t,
         sent := SendTo(g.sent, Peer(g.t, e).node, Frame(HEADER_DATA, Relabel(payload, lci))))
  }

  // A live call's packet is long enough to be rewritten. Only a one-byte packet may not be,
  // and only while its node has a call on LCI 0.
  predicate Readable(g: Loop, n: nat, payload: seq<byte>) {
    Endpoint(n, GetLCI(payload)) in g.t.slots ==> |payload| >= 2
  }

  predicate InRelayTable(g: Loop) {
    forall e :: e in g.t.slots ==> g.t.slots[e].tunA < |g.sent| && g.t.slots[e].tunB < |g.sent|
  }

  datatype Arrival = Arrival(n: nat, hdr: byte, payload: seq<byte>)

  // A disconnect, or a restart of an operational link, tears the node's calls down.
  predicate Tears(g: Loop, a: Arrival)
    requires a.n < |g.links|
  {
    if a.payload == [] then a.hdr == HEADER_DISCONNECT
    else GetType(a.payload) == RESTART_REQUEST && g.links[a.n] == Operational
  }

  predicate Calls(g: Loop, a: Arrival)
    requires a.n < |g.links|
  {
    GetType(a.payload) == CALL_REQUEST && g.links[a.n] == Operational
  }

  /** The frames a reader can meet and the choices open to it then. */
  ghost predicate Allowed(g: Loop, addrs: seq<string>, a: Arrival, c: Choice) {
    && Shaped(g, a.n) && |addrs| == |g.links| && (a.payload == [] || Readable(g, a.n, a.payload)) && InRelayTable(g)
    && (Tears(g, a) ==> Lists(c.dead, g.t, a.n))
    && (Calls(g, a) ==> CallAllowed(g, addrs, a.n, a.payload, c))
  }

  lemma ListedInRelay(g: Loop, dead: seq<LoopSession>, n: nat)
    requires InRelayTable(g) && Lists(dead, g.t, n)
    ensures InRelay(g, dead)
  {
  }

  /** One pass of a node's reader loop. */
  ghost function Handle(g: Loop, addrs: seq<string>, a: Arrival, c: Choice): Loop
    requires Allowed(g, addrs, a, c)
  {
    if a.payload == [] then
      if a.hdr == HEADER_CONNECT then OnConnect(g, a.n)
      else if a.hdr == HEADER_DISCONNECT then
        ListedInRelay(g, c.dead, a.n);
        OnDisconnect(g, a.n, c.dead)
      else g
    else if GetType(a.payload) == RESTART_REQUEST then
      if g.links[a.n] == Operational then
        ListedInRelay(g, c.dead, a.n);
        OnRestart(ClearAll(g, a.n, c.dead), a.n, a.payload)
      else OnRestart(g, a.n, a.payload)
    else if g.links[a.n] != Operational then g
    else if GetType(a.payload) == CALL_REQUEST then OnCall(g, addrs, a.n, a.payload, c)
    else OnPacket(g, a.n, a.payload)
  }

  // ---- what every run of whole handlers keeps ----

  /** Every live call has both its nodes' links operational. */
  predicate LinksUp(t: Table, links: seq<Link>) {
    forall e :: e in t.slots ==> e.node < |links| && links[e.node] == Operational
  }

  ghost predicate Inv(g: Loop) {
    && |g.rings| == |g.links| == |g.sent|
    && Consistent(g.t) && Valid(Shared(g.t, g.rings)) && Partitioned(Shared(g.t, g.rings))
    && LinksUp(g.t, g.links)
  }

  // The kernel's side of the LCI partition: it never picks a relay LCI for its own calls.
  predicate KernelLci(g: Loop, a: Arrival) {
    GetType(a.payload) == CALL_REQUEST && a.n < |g.rings| ==> !g.rings[a.n].Has(GetLCI(a.payload))
  }

  lemma ClearAllKeepsInv(g: Loop, n: nat, dead: seq<LoopSession>, links: seq<Link>)
    requires Inv(g) && Shaped(g, n) && Lists(dead, g.t, n) && InRelay(g, dead)
    requires |links| == |g.links| && forall m :: 0 <= m < |links| && m != n ==> links[m] == g.links[m]
    ensures Inv(ClearAll(g, n, dead).(links := links))
    ensures forall e :: e in ClearAll(g, n, dead).t.slots ==> e.node != n
  {
    ClearedIsRemoveNode(g.t, dead, n);
    RemoveNodeExact(g.t, n);
  }

  lemma ForwardCallKeepsInv(g: Loop, n: nat, payload: seq<byte>, dst: nat, created: Option<LoopSession>, written: bool)
    requires Inv(g) && Shaped(g, n) && dst < |g.rings| && |payload| >= 3
    requires g.links[n] == Operational && g.links[dst] == Operational && !g.rings[n].Has(GetLCI(payload))
    requires created.Some? ==> Creates(g, n, payload, dst, created.value)
    ensures Inv(ForwardCall(g, n, payload, dst, created, written))
  {
    var e := Endpoint(n, GetLCI(payload));
    EvictFrees(g.t, e);
    if created.Some? {
      var s, h := created.value, Shared(g.t, g.rings);
      PartitionMakesSafe(h, CallSection(s));
      SectionIff(h, CallSection(s));
      PartitionKept(h, CallSection(s));
      LiveRemovable(Perform(h, CallSection(s)).t, s);
    }
  }

  lemma PacketKeepsInv(g: Loop, n: nat, payload: seq<byte>)
    requires Inv(g) && Shaped(g, n) && Readable(g, n, payload) && InRelayTable(g)
    ensures Inv(OnPacket(g, n, payload))
  {
    var e := Endpoint(n, GetLCI(payload));
    if e in g.t.slots {
      assert InPlace(g.t, e, g.t.slots[e]);
      LiveRemovable(g.t, g.t.slots[e]);
    }
  }

  lemma CallKeepsInv(g: Loop, addrs: seq<string>, n: nat, payload: seq<byte>, c: Choice)
    requires Inv(g) && Shaped(g, n) && |addrs| == |g.links| && CallAllowed(g, addrs, n, payload, c)
    requires g.links[n] == Operational && !g.rings[n].Has(GetLCI(payload))
    ensures Inv(OnCall(g, addrs, n, payload, c))
  {
    var v := CallVerdict(addrs, g.links, payload);
    if v.Forward? {
      ForwardCallKeepsInv(g, n, payload, v.dst, c.created, c.written);
    }
  }

  lemma HandleKeepsInv(g: Loop, addrs: seq<string>, a: Arrival, c: Choice)
    requires Inv(g) && Allowed(g, addrs, a, c) && KernelLci(g, a)
    ensures Inv(Handle(g, addrs, a, c))
  {
    if Tears(g, a) {
      ListedInRelay(g, c.dead, a.n);
      ClearAllKeepsInv(g, a.n, c.dead, if a.payload == [] then g.links[a.n := Down] else g.links);
    } else if a.payload != [] && GetType(a.payload) != RESTART_REQUEST && g.links[a.n] == Operational {
      if GetType(a.payload) == CALL_REQUEST {
        CallKeepsInv(g, addrs, a.n, a.payload, c);
      } else {
        PacketKeepsInv(g, a.n, a.payload);
      }
    }
  }

  // At start-up every node has been sent a Connect and holds no call.
  ghost predicate Init(g: Loop) {
    && |g.rings| == |g.links| == |g.sent| && Valid(Shared(g.t, g.rings))
    && g.t == Table(map[], {})
    && forall n :: 0 <= n < |g.links| ==> g.links[n] == Connecting && g.sent[n] == [Frame(HEADER_CONNECT, [])]
  }

  ghost predicate Run(gs: seq<Loop>, addrs: seq<string>, ins: seq<Arrival>, cs: seq<Choice>) {
    && |gs| == |ins| + 1 && |cs| == |ins| && Init(gs[0])
    && forall i :: 0 <= i < |ins| ==>
                     Allowed(gs[i], addrs, ins[i], cs[i]) && gs[i + 1] == Handle(gs[i], addrs, ins[i], cs[i])
  }

  /** In every run of whole handlers over connects, disconnects, restarts, calls, clears and
      data, as long as the kernel respects the LCI partition, the table stays consistent and
      every live call has both its nodes' links operational. */
  lemma {:induction false} RunKeepsLinksUp(gs: seq<Loop>, addrs: seq<string>, ins: seq<Arrival>, cs: seq<Choice>, n: nat)
    requires Run(gs, addrs, ins, cs) && n < |gs|
    requires forall i :: 0 <= i < n ==> KernelLci(gs[i], ins[i])
    ensures Inv(gs[n])
    ensures forall e :: e in gs[n].t.slots ==>
              var s := gs[n].t.slots[e];
              && s.tunA < |gs[n].links| && gs[n].links[s.tunA] == Operational
              && s.tunB < |gs[n].links| && gs[n].links[s.tunB] == Operational
  {
    if n > 0 {
      RunKeepsLinksUp(gs, addrs, ins, cs, n - 1);
      assert Allowed(gs[n - 1], addrs, ins[n - 1], cs[n - 1]);
      assert gs[n - 1 + 1] == Handle(gs[n - 1], addrs, ins[n - 1], cs[n - 1]);
      HandleKeepsInv(gs[n - 1], addrs, ins[n - 1], cs[n - 1]);
    }
    forall e | e in gs[n].t.slots
      ensures var s := gs[n].t.slots[e];
              && s.tunA < |gs[n].links| && gs[n].links[s.tunA] == Operational
              && s.tunB < |gs[n].links| && gs[n].links[s.tunB] == Operational
    {
      assert InPlace(gs[n].t, e, gs[n].t.slots[e]);
    }
  }

  // ---- who receives packets ----

  predicate MayReceive(f: Frame, link: Link) {
    f.hdr == HEADER_DATA && GetType(f.data) != RESTART_CONFIRM ==> link == Operational
  }

  // log' extends log by frames that a node may receive in the given link state.
  ghost predicate Extends(log: seq<Frame>, log': seq<Frame>, link: Link) {
    && |log| <= |log'| && (forall k :: 0 <= k < |log| ==> log'[k] == log[k])
    && forall k :: |log| <= k < |log'| ==> MayReceive(log'[k], link)
  }

  ghost predicate Grows(sent: Sent, sent': Sent, links: seq<Link>) {
    && |sent'| == |sent| == |links|
    && forall m :: 0 <= m < |sent| ==> Extends(sent[m], sent'[m], links[m])
  }

  lemma GrowsBy(sent: Sent, sent': Sent, links: seq<Link>, n: nat, f: Frame)
    requires Grows(sent, sent', links) && n < |sent| && MayReceive(f, links[n])
    ensures Grows(sent, SendTo(sent', n, f), links)
  {
    assert Extends(sent[n], sent'[n], links[n]);
    forall m | 0 <= m < |sent| ensures Extends(sent[m], SendTo(sent', n, f)[m], links[m]) {
      assert Extends(sent[m], sent'[m], links[m]);
    }
  }

  lemma {:induction false} ClearsGrow(sent: Sent, sent': Sent, links: seq<Link>, n: nat, dead: seq<LoopSession>)
    requires Grows(sent, sent', links)
    requires forall s :: s in dead ==> OtherEnd(s, n).node < |sent| && links[OtherEnd(s, n).node] == Operational
    ensures Grows(sent, SendClears(sent', n, dead), links)
  {
    if dead != [] {
      ClearsGrow(sent, sent', links, n, dead[..|dead| - 1]);
      var s := dead[|dead| - 1];
      var lci: Lci := if s.tunA == n then s.lciB else s.lciA;
      GrowsBy(sent, SendClears(sent', n, dead[..|dead| - 1]), links, OtherEnd(s, n).node,
              Clear(s.gfi, lci, CAUSE_NETWORK_CONGESTION));
    }
  }

  lemma ListedUp(g: Loop, dead: seq<LoopSession>, n: nat)
    requires Inv(g) && Lists(dead, g.t, n)
    ensures forall s :: s in dead ==> OtherEnd(s, n).node < |g.links| && g.links[OtherEnd(s, n).node] == Operational
  {
    forall s | s in dead ensures OtherEnd(s, n).node < |g.links| && g.links[OtherEnd(s, n).node] == Operational {
      DeadInPlace(g.t, dead, n, s);
    }
  }

  lemma CallGrows(g: Loop, addrs: seq<string>, n: nat, payload: seq<byte>, c: Choice)
    requires Inv(g) && Shaped(g, n) && |addrs| == |g.links| && CallAllowed(g, addrs, n, payload, c)
    requires g.links[n] == Operational
    ensures Grows(g.sent, OnCall(g, addrs, n, payload, c).sent, g.links)
  {
    var refusal := Clear(GetGFI(payload), GetLCI(payload), CAUSE_NETWORK_CONGESTION);
    var v := CallVerdict(addrs, g.links, payload);
    if v.Refuse? {
      GrowsBy(g.sent, g.sent, g.links, n, Clear(GetGFI(payload), GetLCI(payload), v.cause));
    } else if c.created.None? {
      GrowsBy(g.sent, g.sent, g.links, n, refusal);
    } else {
      var f := Frame(HEADER_DATA, Relabel(payload, c.created.value.lciB));
      GrowsBy(g.sent, g.sent, g.links, v.dst, f);
      GrowsBy(g.sent, SendTo(g.sent, v.dst, f), g.links, n, refusal);
    }
  }

  lemma PacketGrows(g: Loop, n: nat, payload: seq<byte>)
    requires Inv(g) && Shaped(g, n) && Readable(g, n, payload) && InRelayTable(g) && g.links[n] == Operational
    ensures Grows(g.sent, OnPacket(g, n, payload).sent, g.links)
  {
    var x := Endpoint(n, GetLCI(payload));
    if x in g.t.slots {
      PacketReachesPeer(g, n, payload);
      PeerInvolution(g.t, x);
      GrowsBy(g.sent, g.sent, g.links, Peer(g.t, x).node, Frame(HEADER_DATA, Relabel(payload, Peer(g.t, x).lci)));
    } else {
      GrowsBy(g.sent, g.sent, g.links, n, Clear(GetGFI(payload), x.lci, CAUSE_NETWORK_CONGESTION));
    }
  }

  lemma TearsGrow(g: Loop, n: nat, payload: seq<byte>, dead: seq<LoopSession>)
    requires Inv(g) && Shaped(g, n) && Lists(dead, g.t, n) && InRelay(g, dead)
    ensures Grows(g.sent, OnDisconnect(g, n, dead).sent, g.links)
    ensures payload != [] ==> Grows(g.sent, OnRestart(ClearAll(g, n, dead), n, payload).sent, g.links)
  {
    ListedUp(g, dead, n);
    ClearsGrow(g.sent, g.sent, g.links, n, dead);
    if payload != [] {
      GrowsBy(g.sent, SendClears(g.sent, n, dead), g.links, n,
              Frame(HEADER_DATA, [payload[0] / 16 * 16, 0, RESTART_CONFIRM]));
    }
  }

  lemma ControlGrows(g: Loop, n: nat, payload: seq<byte>)
    requires Inv(g) && Shaped(g, n)
    ensures Grows(g.sent, g.sent, g.links)
    ensures Grows(g.sent, OnConnect(g, n).sent, g.links)
    ensures payload != [] ==> Grows(g.sent, OnRestart(g, n, payload).sent, g.links)
  {
    GrowsBy(g.sent, g.sent, g.links, n, Frame(HEADER_CONNECT, []));
    if payload != [] {
      GrowsBy(g.sent, g.sent, g.links, n, Frame(HEADER_DATA, [payload[0] / 16 * 16, 0, RESTART_CONFIRM]));
    }
  }

  /** No X.25 packet other than a RESTART_CONFIRM is ever handed to a node whose link was not
      operational when the frame causing it arrived. */
  lemma PacketsOnlyToOperational(g: Loop, addrs: seq<string>, a: Arrival, c: Choice)
    requires Inv(g) && Allowed(g, addrs, a, c)
    ensures Grows(g.sent, Handle(g, addrs, a, c).sent, g.links)
  {
    ControlGrows(g, a.n, a.payload);
    if Tears(g, a) {
      ListedInRelay(g, c.dead, a.n);
      TearsGrow(g, a.n, a.payload, c.dead);
    } else if a.payload != [] && GetType(a.payload) != RESTART_REQUEST && g.links[a.n] == Operational {
      if GetType(a.payload) == CALL_REQUEST {
        CallGrows(g, addrs, a.n, a.payload, c);
      } else {
        PacketGrows(g, a.n, a.payload);
      }
    }
  }

  // ---- a call's life ----

  lemma AddConnects(t: Table, s: LoopSession)
    requires SideA(s) != SideB(s)
    ensures var t', x, y := Add(t, s), SideA(s), SideB(s);
            && x in t'.slots && y in t'.slots && Peer(t', x) == y && Peer(t', y) == x
            && (forall e :: e != x && e != y ==> (e in t'.slots <==> e in t.slots))
  {
  }

  /** An accepted CALL_REQUEST connects its LCI with an LCI that was free on the destination:
      from then on packets travel between exactly these two endpoints, and the destination is
      handed the caller's packet under that LCI. */
  lemma AcceptedCallConnects(g: Loop, addrs: seq<string>, n: nat, payload: seq<byte>, c: Choice)
    requires Inv(g) && Shaped(g, n) && |addrs| == |g.links| && CallAllowed(g, addrs, n, payload, c)
    requires g.links[n] == Operational && !g.rings[n].Has(GetLCI(payload))
    requires CallVerdict(addrs, g.links, payload).Forward? && c.created.Some? && c.written
    ensures var x, y := Endpoint(n, GetLCI(payload)), SideB(c.created.value);
            var g' := OnCall(g, addrs, n, payload, c);
            && y !in Evict(g.t, x).slots && x != y && g.rings[y.node].Has(y.lci)
            && x in g'.t.slots && y in g'.t.slots && Peer(g'.t, x) == y && Peer(g'.t, y) == x
            && (forall e :: e != x && e != y ==> (e in g'.t.slots <==> e in Evict(g.t, x).slots))
            && g'.sent == SendTo(g.sent, y.node, Frame(HEADER_DATA, Relabel(payload, c.created.value.lciB)))
  {
    var s, h := c.created.value, Shared(g.t, g.rings);
    EvictFrees(g.t, SideA(s));
    PartitionMakesSafe(h, CallSection(s));
    AddConnects(Evict(g.t, SideA(s)), s);
  }

  /** A packet on a live endpoint is handed to its peer endpoint's node alone, changed only
      in its LCI; a CLEAR_CONFIRM ends exactly that call, and nothing else ends any. */
  lemma PacketReachesPeer(g: Loop, n: nat, payload: seq<byte>)
    requires Inv(g) && Shaped(g, n) && Readable(g, n, payload) && InRelayTable(g)
    requires Endpoint(n, GetLCI(payload)) in g.t.slots
    ensures var x := Endpoint(n, GetLCI(payload)); var y := Peer(g.t, x);
            var g' := OnPacket(g, n, payload);
            && y.node < |g.sent| && y.lci < 4096
            && g'.sent == SendTo(g.sent, y.node, Frame(HEADER_DATA, Relabel(payload, y.lci)))
            && GetLCI(Relabel(payload, y.lci)) == y.lci && GetType(Relabel(payload, y.lci)) == GetType(payload)
            && (forall e :: e in g'.t.slots <==>
                              e in g.t.slots && !(GetType(payload) == CLEAR_CONFIRM && (e == x || e == y)))
  {
    var x := Endpoint(n, GetLCI(payload));
    assert InPlace(g.t, x, g.t.slots[x]);
    RelabelFrame(payload, Peer(g.t, x).lci);
  }
}

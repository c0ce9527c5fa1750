/** tun-gateway's handlers as the code runs them when nothing interferes: the loops and the
    in-place header rewrites, over the session manager object. TunGateway interleaves the
    same steps. */
module TunHandlers {
  import opened Wire
  import opened RoundRobin
  import opened SessionTable
  import opened SessionManager
  import opened TunFrames
  import opened TunGateway

  function SweepClears(order: seq<Session>): (r: seq<(Conn, Bytes)>)
    ensures (forall s :: s in order ==> s.connB.Some?) ==>
              |r| == |order|
              && forall i :: 0 <= i < |order| ==>
                               var s := order[i];
                               r[i] == (s.connB.value, ClearRequest(s.gfi, s.lciB, CAUSE_NETWORK_CONGESTION, 0))
  {
    if order == [] then []
    else
      var s := order[|order| - 1];
      SweepClears(order[..|order| - 1])
      + if s.connB.None? then [] else [(s.connB.value, ClearRequest(s.gfi, s.lciB, CAUSE_NETWORK_CONGESTION, 0))]
  }

  function RemoveEach(t: Table, order: seq<Session>): Table {
    if order == [] then t else Remove(RemoveEach(t, order[..|order| - 1]), order[|order| - 1])
  }

  lemma {:induction false} RemoveEachLookups(t: Table, order: seq<Session>)
    requires Weak(t)
    ensures var t' := RemoveEach(t, order);
            && Weak(t') && (Exact(t) ==> Exact(t'))
            && (forall r: Session :: Registered(t', r) <==> Registered(t, r) && r !in order)
            && (forall c: Conn, l: nat :: GetB(t', c, l) == match GetB(t, c, l)
                                                           case Some(s) => if s in order then None else Some(s)
                                                           case None => None)
  {
    if order != [] {
      var init, s := order[..|order| - 1], order[|order| - 1];
      assert order == init + [s];
      RemoveEachLookups(t, init);
      var t1 := RemoveEach(t, init);
      RemoveKeepsWeak(t1, s);
      RemoveLookups(t1, s);
      IndexedIffRegistered(Remove(t1, s), s);
      if Exact(t) {
        RemoveKeepsExact(t1, s);
      }
    }
  }

  function CleanupFrame(s: Session): Frame {
    Frame(HEADER_DATA, ClearRequest(s.gfi, s.lciA, CAUSE_OUT_OF_ORDER, 0))
  }

  // One CLEAR_REQUEST to the kernel for each listed session that is not idle.
  function CleanupClears(order: seq<Session>, idle: set<Session>): seq<Frame> {
    if order == [] then []
    else
      var s := order[|order| - 1];
      CleanupClears(order[..|order| - 1], idle) + if s in idle then [] else [CleanupFrame(s)]
  }

  // The same with the guard evaluated at each session's turn.
  function CleanupTrace(t: Table, order: seq<Session>, idle: set<Session>): seq<Frame> {
    if order == [] then []
    else
      var init, s := order[..|order| - 1], order[|order| - 1];
      CleanupTrace(t, init, idle)
      + if s !in idle && GetA(RemoveEach(t, init), s.lciA) == Some(s) then [CleanupFrame(s)] else []
  }

  lemma {:induction false} GuardedTrace(t: Table, order: seq<Session>, idle: set<Session>)
    requires Guarded(t, order)
    ensures CleanupTrace(t, order, idle) == CleanupClears(order, idle)
  {
    if order != [] {
      var last := |order| - 1;
      assert forall i :: 0 <= i < last ==> order[..last][..i] == order[..i];
      GuardedTrace(t, order[..last], idle);
    }
  }

  // One session further through the list.
  lemma CleanupStep(t: Table, order: seq<Session>, i: nat, idle: set<Session>)
    requires i < |order|
    ensures var was, s := RemoveEach(t, order[..i]), order[i];
            && RemoveEach(t, order[..i + 1]) == Remove(was, s)
            && CleanupTrace(t, order[..i + 1], idle) == CleanupTrace(t, order[..i], idle)
               + if s !in idle && GetA(was, s.lciA) == Some(s) then [CleanupFrame(s)] else []
  {
    assert order[..i + 1][..i] == order[..i];
  }

  // The sessions of which the kernel knows nothing yet.
  function Idle(order: seq<Session>): set<Session>
    reads order
  {
    set s | s in order && s.state == P1
  }

  class Gateway {
    const sm: SessionManager
    var linkState: Link
    var shuttingDown: bool
    var written: seq<Frame>
    var sent: seq<(Conn, Bytes)>

    constructor (lciStart: uint16, lciEnd: uint16)
      ensures sm.Valid() && fresh(sm) && sm.View() == EmptyTable(sm.View().ring)
      ensures linkState == Down && !shuttingDown && written == [] && sent == []
    {
      sm := new SessionManager(lciStart, lciEnd);
      linkState, shuttingDown, written, sent := Down, false, [], [];
    }

    method WriteFrame(f: Frame)
      modifies this`written
      ensures written == old(written) + [f]
    {
      written := written + [f];
    }

    method SendXot(conn: Conn, d: Bytes)
      modifies this`sent
      ensures sent == old(sent) + [(conn, d)]
    {
      sent := sent + [(conn, d)];
    }

    /** The sweep empties all indexes and sends one CLEAR_REQUEST per session, each on the
        session's own connection and LCI. */
    method CloseAllSessions() returns (order: seq<Session>)
      requires sm.Valid()
      modifies this`sent, sm
      ensures sm.Valid() && sm.View() == RemoveAll(old(sm.View()))
      ensures NoDuplicates(order) && forall s :: s in order <==> Registered(old(sm.View()), s)
      ensures sent == old(sent) + SweepClears(order)
    {
      order := sm.RemoveAllSessions();
      SendSweep(order);
    }

    method SendSweep(order: seq<Session>)
      modifies this`sent
      ensures sent == old(sent) + SweepClears(order)
    {
      assert old(sent) + [] == sent;
      for i := 0 to |order|
        invariant sent == old(sent) + SweepClears(order[..i])
      {
        assert order[..i + 1][..i] == order[..i];
        var s := order[i];
        if s.connB.Some? {
          SendXot(s.connB.value, ClearRequest(s.gfi, s.lciB, CAUSE_NETWORK_CONGESTION, 0));
        }
      }
      assert order[..|order|] == order;
    }

    // The guard against clearing an LCI that has passed to another session.
    method CleanupOne(s: Session)
      requires sm.Valid()
      modifies this`written, sm
      ensures sm.Valid() && sm.View() == Remove(old(sm.View()), s)
      ensures written == old(written) +
                if s.state != P1 && GetA(old(sm.View()), s.lciA) == Some(s) then [CleanupFrame(s)] else []
    {
      if s.state != P1 {
        var current := sm.GetByALCI(s.lciA);
        if current == Some(s) {
          WriteFrame(CleanupFrame(s));
        }
      }
      sm.RemoveSession(s);
    }

    method CleanupAll(order: seq<Session>)
      requires sm.Valid()
      modifies this`written, sm
      ensures sm.Valid() && sm.View() == RemoveEach(old(sm.View()), order)
      ensures written == old(written) + CleanupTrace(old(sm.View()), order, Idle(order))
    {
      ghost var before, idle := sm.View(), Idle(order);
      for i := 0 to |order|
        invariant sm.Valid() && sm.View() == RemoveEach(before, order[..i])
        invariant written == old(written) + CleanupTrace(before, order[..i], idle)
      {
        CleanupStep(before, order, i, idle);
        CleanupOne(order[i]);
      }
      assert order[..|order|] == order;
    }

    /** The cleanup of a closed connection takes out all its sessions and no other. While the
        indexes are a bijection its guard always passes, so the kernel gets one CLEAR_REQUEST
        for each of them that has kernel-side state. */
    method CleanupConn(conn: Conn) returns (order: seq<Session>)
      requires sm.Valid()
      modifies this`written, sm
      ensures sm.Valid() && ForConn(sm.View(), conn) == {}
      ensures NoDuplicates(order) && forall s :: s in order <==> s in ForConn(old(sm.View()), conn)
      ensures Leaves(old(sm.View()), order, sm.View())
      ensures Exact(old(sm.View())) ==> Exact(sm.View()) && written == old(written) + CleanupClears(order, Idle(order))
    {
      order := sm.GetSessionsForConn(conn);
      CleanedUp(sm.View(), order, conn);
      GuardPasses(sm.View(), order, conn, Idle(order));
      CleanupAll(order);
    }

    /** A packet from the kernel on a session's LCI: a clear is confirmed to the kernel if it
        is a request, taken out of every index, and only then passed on; anything else is just
        passed on. The peer sees its own LCI. */
    method PassDown(s: Session, payload: array<byte>)
      requires sm.Valid() && payload.Length >= 2
      modifies this`written, this`sent, sm, s
      ensures sm.Valid() && payload[..] == old(payload[..])
      ensures var t, d := old(sm.View()), old(payload[..]);
              && sm.View() == (if IsClear(GetType(d)) then Remove(t, s) else t)
              && (IsClear(GetType(d)) ==> !Indexed(sm.View(), s))
              && sent == old(sent) + (if s.connB.Some? then [(s.connB.value, Relabel(d, s.lciB))] else [])
              && written == old(written) +
                   (if GetType(d) == CLEAR_REQUEST then [Frame(HEADER_DATA, d[..2] + [CLEAR_CONFIRM])] else [])
              && s.state == if GetType(d) == CALL_CONNECTED then P4
                            else if GetType(d) == CLEAR_REQUEST then P5 else old(s.state)
    {
      var ptype := GetType(payload[..]);
      var remapped := new byte[payload.Length](i requires 0 <= i < payload.Length reads payload => payload[i]);
      assert remapped[..] == payload[..];
      RewriteLci(remapped, s.lciB);
      assert old(written) + [] == written && old(sent) + [] == sent;
      if ptype == CALL_CONNECTED {
        s.SetState(P4);
      } else if ptype == CLEAR_REQUEST {
        s.SetState(P5);
        assert [payload[0], payload[1], CLEAR_CONFIRM] == old(payload[..])[..2] + [CLEAR_CONFIRM];
        WriteFrame(Frame(HEADER_DATA, [payload[0], payload[1], CLEAR_CONFIRM]));
        sm.RemoveSession(s);
      } else if ptype == CLEAR_CONFIRM {
        sm.RemoveSession(s);
      }
      if s.connB.Some? {
        SendXot(s.connB.value, remapped[..]);
      }
    }

    /** The kernel-to-peer dispatch. Without a session the kernel is told to clear, unless it
        is clearing already or the packet is on LCI 0. */
    method Downlink(payload: array<byte>) returns (r: Option<Session>)
      requires sm.Valid()
      modifies this`written, this`sent, sm, sm.byALCI.Values
      ensures sm.Valid() && payload[..] == old(payload[..])
      ensures r == GetA(old(sm.View()), GetLCI(payload[..]))
      ensures r.None? ==>
                && sm.View() == old(sm.View()) && sent == old(sent)
                && written == old(written) +
                     if IsClear(GetType(payload[..])) || GetLCI(payload[..]) == 0 then []
                     else [Frame(HEADER_DATA, Refusal(payload[..]))]
      ensures r.Some? && IsClear(GetType(payload[..])) ==>
                sm.View() == Remove(old(sm.View()), r.value) && !Indexed(sm.View(), r.value)
      ensures r.Some? && !IsClear(GetType(payload[..])) ==> sm.View() == old(sm.View())
      ensures r.Some? ==>
                && written == old(written) +
                     (if GetType(payload[..]) == CLEAR_REQUEST
                      then [Frame(HEADER_DATA, payload[..][..2] + [CLEAR_CONFIRM])] else [])
                && r.value.state == if GetType(payload[..]) == CALL_CONNECTED then P4
                                    else if GetType(payload[..]) == CLEAR_REQUEST then P5 else old(r.value.state)
      ensures r.Some? && r.value.connB.Some? ==>
                |payload[..]| >= 2 && sent == old(sent) + [(r.value.connB.value, Relabel(payload[..], r.value.lciB))]
    {
      var ptype, lci := GetType(payload[..]), GetLCI(payload[..]);
      r := sm.GetByALCI(lci);
      if r.None? {
        if ptype != CLEAR_REQUEST && ptype != CLEAR_CONFIRM && lci != 0 {
          WriteFrame(Frame(HEADER_DATA, ClearRequest(GetGFI(payload[..]), lci, CAUSE_NETWORK_CONGESTION, 0)));
        }
      } else {
        assert r.value in sm.byALCI.Values;
        PassDown(r.value, payload);
      }
    }

    /** A clear from a connection reaches the kernel under the session's A-side LCI; a
        CLEAR_CONFIRM also takes the session out of every index. */
    method UplinkClear(conn: Conn, data: array<byte>) returns (r: Option<Session>)
      requires sm.Valid() && data.Length >= 2
      modifies this`written, sm, sm.sessions.Values, data
      ensures sm.Valid() && r == GetB(old(sm.View()), conn, GetLCI(old(data[..])))
      ensures r.None? ==> sm.View() == old(sm.View()) && written == old(written)
      ensures r.Some? ==>
                && written == old(written) + [Frame(HEADER_DATA, Relabel(old(data[..]), r.value.lciA))]
                && r.value.state == P5
                && if GetType(old(data[..])) == CLEAR_CONFIRM
                   then sm.View() == Remove(old(sm.View()), r.value) && !Indexed(sm.View(), r.value)
                   else sm.View() == old(sm.View())
    {
      var ptype := GetType(data[..]);
      r := sm.GetByBConnLCI(conn, GetLCI(data[..]));
      if r.Some? {
        var s := r.value;
        assert Id(s) in sm.sessions && s in sm.sessions.Values;
        s.SetState(P5);
        WriteRelabeled(data, s.lciA);
        if ptype == CLEAR_CONFIRM {
          sm.RemoveSession(s);
        }
      }
    }

    // A new call on an LCI still in use drops the old session first.
    method ForceRemove(conn: Conn, lci: Lci, ptype: byte)
      requires sm.Valid()
      modifies sm
      ensures sm.Valid() && sm.View() == Forced(old(sm.View()), conn, lci, ptype)
      ensures ptype == CALL_REQUEST ==> GetB(sm.View(), conn, lci).None?
    {
      ForcedFrees(sm.View(), conn, lci);
      if ptype == CALL_REQUEST {
        var stale := sm.GetByBConnLCI(conn, lci);
        if stale.Some? {
          sm.RemoveByBConnLCI(conn, lci);
        }
      }
    }

    /** A call or data packet from a connection: it is written to the kernel under the A-side
        LCI of its session, found or newly allocated; a CALL_REQUEST always gets a new one.
        Otherwise the connection is given up, and told so when the link is not operational or
        no LCI is free. */
    method Uplink(conn: Conn, data: array<byte>) returns (r: Option<Session>)
      requires sm.Valid() && data.Length >= 2 && !IsClear(GetType(data[..]))
      modifies this`written, this`sent, sm, data
      ensures sm.Valid()
      ensures var d := old(data[..]); var t := Forced(old(sm.View()), conn, GetLCI(d), GetType(d));
              if r.Some? then
                && linkState == Operational && !shuttingDown
                && GetB(sm.View(), conn, GetLCI(d)) == r && GetA(sm.View(), r.value.lciA).Some?
                && written == old(written) + [Frame(HEADER_DATA, Relabel(d, r.value.lciA))] && sent == old(sent)
                && (GetType(d) == CALL_REQUEST ==> fresh(r.value))
                && (Exact(t) ==> Exact(sm.View()) && GetA(sm.View(), r.value.lciA) == r)
              else
                && sm.View() == t && written == old(written)
                && sent == old(sent) + (if Refused(t, conn, GetLCI(d)) then [(conn, Refusal(d))] else [])
                && (linkState == Operational && !shuttingDown && GetB(t, conn, GetLCI(d)).None? ==>
                      Pick(t.ring, t.byALCI.Keys).None?)
    {
      var gfi, lci := GetGFI(data[..]), GetLCI(data[..]);
      ForceRemove(conn, lci, GetType(data[..]));
      ghost var t := sm.View();
      r := Admit(conn, data[..]);
      if r.Some? {
        WriteRelabeled(data, r.value.lciA);
        OutcomeLookups(t, sm.View(), conn, gfi, lci, r.value);
      }
    }

    // The checks of the link and of shutdown, then the allocation.
    method Admit(conn: Conn, d: Bytes) returns (r: Option<Session>)
      requires sm.Valid()
      modifies this`sent, sm
      ensures sm.Valid()
      ensures var t := old(sm.View());
              if r.Some? then
                && linkState == Operational && !shuttingDown
                && Outcome(t, sm.View(), conn, GetGFI(d), GetLCI(d), r.value) && GetA(sm.View(), r.value.lciA).Some?
                && sent == old(sent) && (GetB(t, conn, GetLCI(d)).None? ==> fresh(r.value))
              else
                && sm.View() == t
                && sent == old(sent) + (if Refused(t, conn, GetLCI(d)) then [(conn, Refusal(d))] else [])
                && (linkState == Operational && !shuttingDown && GetB(t, conn, GetLCI(d)).None? ==>
                      Pick(t.ring, t.byALCI.Keys).None?)
    {
      if linkState != Operational {
        SendXot(conn, Refusal(d));
        return None;
      }
      if shuttingDown {
        assert old(sent) + [] == sent;
        return None;
      }
      r := AllocateFor(conn, d);
    }

    method WriteRelabeled(data: array<byte>, lci: LciField)
      requires data.Length >= 2
      modifies this`written, data
      ensures written == old(written) + [Frame(HEADER_DATA, Relabel(old(data[..]), lci))]
    {
      RewriteLci(data, lci);
      WriteFrame(Frame(HEADER_DATA, data[..]));
    }

    predicate Refused(t: Table, conn: Conn, lci: nat)
      reads this
    {
      linkState != Operational || (!shuttingDown && GetB(t, conn, lci).None?)
    }

    // Find or allocate the session, and look it up once more by its A-side LCI.
    method AllocateFor(conn: Conn, d: Bytes) returns (r: Option<Session>)
      requires sm.Valid()
      modifies this`sent, sm
      ensures sm.Valid()
      ensures var t := old(sm.View());
              if r.Some? then
                && Outcome(t, sm.View(), conn, GetGFI(d), GetLCI(d), r.value) && GetA(sm.View(), r.value.lciA).Some?
                && sent == old(sent) && (GetB(t, conn, GetLCI(d)).None? ==> fresh(r.value))
              else
                && sm.View() == t
                && sent == old(sent) + (if GetB(t, conn, GetLCI(d)).None? then [(conn, Refusal(d))] else [])
                && (GetB(t, conn, GetLCI(d)).None? ==> Pick(t.ring, t.byALCI.Keys).None?)
    {
      r := sm.AllocateAndAddTunSession(conn, GetGFI(d), GetLCI(d));
      if r.None? {
        SendXot(conn, Refusal(d));
        return;
      }
      var s := sm.GetByALCI(r.value.lciA);
      if s.None? {
        assert old(sent) + [] == sent;
        return None;
      }
    }
  }

  function Forced(t: Table, conn: Conn, lci: nat, ptype: byte): Table {
    if ptype == CALL_REQUEST then RemoveByB(t, conn, lci) else t
  }

  lemma ForcedFrees(t: Table, conn: Conn, lci: nat)
    requires Weak(t)
    ensures GetB(Forced(t, conn, lci, CALL_REQUEST), conn, lci).None?
  {
    if GetB(t, conn, lci).Some? {
      DropBAt(t.byBConn, conn, lci);
    }
  }

  // What a successful allocation for (conn, gfi, lci) leaves behind: s found or s created.
  predicate Outcome(t: Table, t': Table, conn: Conn, gfi: byte, lci: nat, s: Session) {
    if GetB(t, conn, lci).Some? then GetB(t, conn, lci) == Some(s) && t' == t
    else t.ring.Valid() && Allocates(t, conn, gfi, lci, s) && t.ring.Has(s.lciA) && t' == Allocate(t, s)
  }

  lemma OutcomeLookups(t: Table, t': Table, conn: Conn, gfi: byte, lci: nat, s: Session)
    requires Weak(t) && Outcome(t, t', conn, gfi, lci, s)
    ensures GetB(t', conn, lci) == Some(s)
    ensures Exact(t) ==> Exact(t') && GetA(t', s.lciA) == Some(s)
  {
    if GetB(t, conn, lci).Some? {
      assert OwnB(t, conn, lci, s);
      if Exact(t) {
        ExactIsBijection(t);
      }
    } else {
      PutLookups(t, s);
      AllocateKeepsExact(t, conn, gfi, lci, s);
    }
  }

  // t' registers exactly the sessions of t that are not listed.
  ghost predicate Leaves(t: Table, order: seq<Session>, t': Table) {
    && (forall k :: k in t'.sessions <==> k in t.sessions && t.sessions[k] !in order)
    && forall k :: k in t'.sessions ==> t'.sessions[k] == t.sessions[k]
  }

  // At its turn every listed session is still what its A-side LCI leads to.
  ghost predicate Guarded(t: Table, order: seq<Session>) {
    forall i :: 0 <= i < |order| ==> GetA(RemoveEach(t, order[..i]), order[i].lciA) == Some(order[i])
  }

  lemma GuardPasses(t: Table, order: seq<Session>, conn: Conn, idle: set<Session>)
    requires Weak(t) && NoDuplicates(order) && forall s :: s in order ==> s in ForConn(t, conn)
    ensures Exact(t) ==> CleanupTrace(t, order, idle) == CleanupClears(order, idle)
  {
    if Exact(t) {
      forall i | 0 <= i < |order| ensures GetA(RemoveEach(t, order[..i]), order[i].lciA) == Some(order[i]) {
        StillFound(t, order, i, conn);
      }
      GuardedTrace(t, order, idle);
    }
  }

  lemma StillFound(t: Table, order: seq<Session>, i: nat, conn: Conn)
    requires Exact(t) && NoDuplicates(order) && i < |order| && order[i] in ForConn(t, conn)
    ensures GetA(RemoveEach(t, order[..i]), order[i].lciA) == Some(order[i])
  {
    var s := order[i];
    RemoveEachLookups(t, order[..i]);
    var l :| l in t.byBConn[conn] && t.byBConn[conn][l] == s;
    assert OwnB(t, conn, l, s);
    ExactIsBijection(RemoveEach(t, order[..i]));
  }

  lemma GoneB(t: Table, order: seq<Session>, conn: Conn, l: nat)
    requires Weak(t) && forall s :: s in ForConn(t, conn) ==> s in order
    ensures GetB(RemoveEach(t, order), conn, l).None?
  {
    RemoveEachLookups(t, order);
    if GetB(t, conn, l).Some? {
      assert t.byBConn[conn][l] in ForConn(t, conn);
    }
  }

  lemma CleanedUp(t: Table, order: seq<Session>, conn: Conn)
    requires Weak(t) && forall s :: s in ForConn(t, conn) ==> s in order
    ensures var t' := RemoveEach(t, order);
            ForConn(t', conn) == {} && (Exact(t) ==> Exact(t')) && Leaves(t, order, t')
  {
    var t' := RemoveEach(t, order);
    forall l: nat ensures conn in t'.byBConn ==> l !in t'.byBConn[conn] {
      GoneB(t, order, conn, l);
    }
    RemoveEachLookups(t, order);
    forall k ensures k in t'.sessions <==> k in t.sessions && t.sessions[k] !in order {
      assert k in t.sessions ==> Registered(t, t.sessions[k]);
      assert k in t'.sessions ==> Registered(t', t'.sessions[k]);
    }
    forall k | k in t'.sessions ensures t'.sessions[k] == t.sessions[k] {
      assert Registered(t', t'.sessions[k]);
    }
  }
}

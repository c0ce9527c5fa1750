/** The session manager object: its three maps and round-robin cursor, changed in place
    by the operations that SessionTable specifies. Every method body is one critical
    section of the manager's mutex. */
module SessionManager {
  import opened Wire
  import opened RoundRobin
  import opened SessionTable

  ghost predicate NoDuplicates<T>(xs: seq<T>) {
    forall i, j :: 0 <= i < j < |xs| ==> xs[i] != xs[j]
  }

  class SessionManager {
    var sessions: map<SessionId, Session>
    var byALCI: map<nat, Session>
    var byBConnLCI: map<Conn, map<nat, Session>>
    const tunLciStart: uint16
    const tunLciEnd: uint16
    var nextLCI: uint16

    ghost predicate InRange()
      reads this
    {
      1 <= tunLciStart <= nextLCI <= tunLciEnd <= 4095
    }

    ghost function View(): Table
      requires InRange()
      reads this
    {
      Table(sessions, byALCI, byBConnLCI,
            Ring(tunLciStart as nat, tunLciEnd as nat - tunLciStart as nat + 1, nextLCI as nat))
    }

    ghost predicate Valid()
      reads this
    {
      InRange() && Weak(View())
    }

    constructor (lciStart: uint16, lciEnd: uint16)
      ensures Valid() && View() == EmptyTable(View().ring) && nextLCI == tunLciStart
      ensures var s: uint16, e: uint16 := if lciStart < 1 then 1 else lciStart, if lciEnd > 4095 then 4095 else lciEnd;
              (tunLciStart, tunLciEnd) == if s <= e then (s, e) else (1, 4095)
    {
      var s, e := lciStart, lciEnd;
      if s < 1 {
        s := 1;
      }
      if e > 4095 {
        e := 4095;
      }
      if s > e {
        s, e := 1, 4095;
      }
      sessions, byALCI, byBConnLCI := map[], map[], map[];
      tunLciStart, tunLciEnd, nextLCI := s, e, s;
    }

    /** The lowest LCI of the range that no session holds on its A side. */
    method AllocateTunLCI() returns (r: Option<uint16>)
      requires Valid()
      ensures r.None? <==> forall l: nat :: View().ring.Has(l) ==> l in byALCI
      ensures r.Some? ==> View().ring.Has(r.value as nat) && r.value as nat !in byALCI
                          && forall l: nat :: tunLciStart as nat <= l < r.value as nat ==> l in byALCI
    {
      var lci := tunLciStart;
      while lci <= tunLciEnd
        invariant tunLciStart <= lci <= tunLciEnd + 1
        invariant forall l: nat :: tunLciStart as nat <= l < lci as nat ==> l in byALCI
      {
        if lci as nat !in byALCI {
          return Some(lci);
        }
        lci := lci + 1;
      }
      return None;
    }

    method Index(s: Session)
      requires Valid() && ValidLci(s.lciA)
      modifies this`sessions, this`byALCI, this`byBConnLCI
      ensures Valid() && View() == Put(old(View()), s)
    {
      PutKeepsWeak(View(), s);
      var byB := byBConnLCI;
      if s.connB.Some? {
        var conn := s.connB.value;
        if conn !in byB {
          byB := byB[conn := map[]];
        }
        var lcis: map<nat, Session> := byB[conn];
        byB := byB[conn := lcis[s.lciB := s]];
      }
      assert byB == PutB(byBConnLCI, s);
      sessions := sessions[Id(s) := s];
      byALCI := byALCI[s.lciA := s];
      byBConnLCI := byB;
    }

    method AddSession(s: Session) returns (err: Option<AddError>)
      requires Valid()
      modifies this`sessions, this`byALCI, this`byBConnLCI
      ensures Valid() && View() == Add(old(View()), s) && err == AddCheck(s)
    {
      if s.gfi == 0 {
        return Some(ZeroGFI);
      }
      if s.lciA < LCI_MIN {
        return Some(LciATooSmall);
      }
      if s.lciA > LCI_MAX {
        return Some(LciATooLarge);
      }
      if s.lciB < LCI_MIN {
        return Some(LciBTooSmall);
      }
      if s.lciB > LCI_MAX {
        return Some(LciBTooLarge);
      }
      Index(s);
      return None;
    }

    /** The scan itself, on 16-bit arithmetic: it takes the LCI that the ring picks. */
    method NextFree() returns (r: Option<uint16>)
      requires Valid()
      ensures Pick(View().ring, byALCI.Keys) == if r.Some? then Some(r.value as nat) else None
      ensures r.Some? ==> tunLciStart <= r.value <= tunLciEnd && r.value as nat !in byALCI
    {
      ghost var ring := View().ring;
      var rangeSize := tunLciEnd - tunLciStart + 1;
      var i: uint16 := 0;
      while i < rangeSize
        invariant i <= rangeSize
        invariant Pick(ring, byALCI.Keys) == Scan(ring, byALCI.Keys, i as nat)
      {
        AtDistance(ring, i as nat);
        var lci := tunLciStart + (nextLCI - tunLciStart + i) % rangeSize;
        assert lci as nat == ring.At(i as nat);
        if lci as nat !in byALCI {
          return Some(lci);
        }
        i := i + 1;
      }
      return None;
    }

    method AllocateAndAddTunSession(conn: Conn, gfi: byte, lci: LciField) returns (r: Option<Session>)
      requires Valid()
      modifies this
      ensures Valid()
      ensures var t := old(View());
              if GetB(t, conn, lci).Some? then r == GetB(t, conn, lci) && View() == t
              else if Pick(t.ring, t.byALCI.Keys).None? then r == None && View() == t
              else r.Some? && fresh(r.value) && r.value.state == P1
                   && Allocates(t, conn, gfi, lci, r.value)
                   && t.ring.Has(r.value.lciA) && View() == Allocate(t, r.value)
    {
      if conn in byBConnLCI && lci in byBConnLCI[conn] {
        return Some(byBConnLCI[conn][lci]);
      }
      var free := NextFree();
      if free.None? {
        return None;
      }
      var tunLci := free.value;
      ghost var before := View();
      AfterCursor(before.ring, tunLci as nat);
      MoveCursor(before, tunLci as nat);
      var rangeSize := tunLciEnd - tunLciStart + 1;
      nextLCI := tunLciStart + (tunLci - tunLciStart + 1) % rangeSize;
      assert View() == before.(ring := before.ring.After(tunLci as nat));
      var s := new Session(NegotiateGFI(gfi), tunLci as nat, lci, Some(conn), P1);
      Index(s);
      return Some(s);
    }

    method RemoveByBConnLCI(conn: Conn, lci: nat)
      requires Valid()
      modifies this`sessions, this`byALCI, this`byBConnLCI
      ensures Valid() && View() == RemoveByB(old(View()), conn, lci)
    {
      RemoveByBKeepsWeak(View(), conn, lci);
      if conn !in byBConnLCI {
        return;
      }
      var lcis: map<nat, Session> := byBConnLCI[conn];
      if lci !in lcis {
        return;
      }
      var s := lcis[lci];
      sessions := sessions - {Id(s)};
      byALCI := byALCI - {s.lciA};
      lcis := lcis - {lci};
      byBConnLCI := if lcis == map[] then byBConnLCI - {conn} else byBConnLCI[conn := lcis];
    }

    method RemoveSession(s: Session)
      requires Valid()
      modifies this`sessions, this`byALCI, this`byBConnLCI
      ensures Valid() && View() == Remove(old(View()), s)
      ensures !Indexed(View(), s)
    {
      RemoveKeepsWeak(View(), s);
      if Id(s) in sessions && sessions[Id(s)] == s {
        sessions := sessions - {Id(s)};
      }
      if s.lciA in byALCI && byALCI[s.lciA] == s {
        byALCI := byALCI - {s.lciA};
      }
      if s.connB.Some? && s.connB.value in byBConnLCI {
        var conn := s.connB.value;
        if s.lciB in byBConnLCI[conn] && byBConnLCI[conn][s.lciB] == s {
          var lcis: map<nat, Session> := byBConnLCI[conn] - {s.lciB};
          byBConnLCI := if lcis == map[] then byBConnLCI - {conn} else byBConnLCI[conn := lcis];
        }
      }
    }

    method GetByALCI(lci: nat) returns (r: Option<Session>)
      requires Valid()
      ensures r == GetA(View(), lci)
      ensures r.Some? ==> r.value.lciA == lci && Registered(View(), r.value)
    {
      return if lci in byALCI then Some(byALCI[lci]) else None;
    }

    method GetByBConnLCI(conn: Conn, lci: nat) returns (r: Option<Session>)
      requires Valid()
      ensures r == GetB(View(), conn, lci)
      ensures r.Some? ==> r.value.connB == Some(conn) && r.value.lciB == lci && Registered(View(), r.value)
    {
      if conn !in byBConnLCI {
        return None;
      }
      assert lci in byBConnLCI[conn] ==> OwnB(View(), conn, lci, byBConnLCI[conn][lci]);
      return if lci in byBConnLCI[conn] then Some(byBConnLCI[conn][lci]) else None;
    }

    /** The sessions of one connection, each once, in no particular order. */
    method GetSessionsForConn(conn: Conn) returns (res: seq<Session>)
      requires Valid()
      ensures NoDuplicates(res)
      ensures forall s :: s in res <==> s in ForConn(View(), conn)
    {
      res := [];
      if conn in byBConnLCI {
        var lcis: map<nat, Session> := byBConnLCI[conn];
        var todo := lcis.Keys;
        assert forall k :: k in lcis ==> OwnB(View(), conn, k, lcis[k]);
        while todo != {}
          invariant todo <= lcis.Keys && NoDuplicates(res)
          invariant forall s :: s in res <==> exists l :: l in lcis && l !in todo && lcis[l] == s
          decreases todo
        {
          var l :| l in todo;
          assert lcis[l] !in res;
          todo := todo - {l};
          res := res + [lcis[l]];
        }
      }
    }

    /** Every registered session, each once, in no particular order. */
    method GetAllSessions() returns (res: seq<Session>)
      requires Valid()
      ensures NoDuplicates(res) && |res| == |sessions|
      ensures forall s :: s in res <==> Registered(View(), s)
    {
      res := [];
      var todo := sessions.Keys;
      while todo != {}
        invariant todo <= sessions.Keys && NoDuplicates(res) && |res| + |todo| == |sessions.Keys|
        invariant forall s :: s in res <==> Registered(View(), s) && Id(s) !in todo
        decreases todo
      {
        var k :| k in todo;
        todo := todo - {k};
        res := res + [sessions[k]];
      }
    }

    /** The sweep: all sessions leave the indexes in one critical section. */
    method RemoveAllSessions() returns (res: seq<Session>)
      requires Valid()
      modifies this`sessions, this`byALCI, this`byBConnLCI
      ensures Valid() && View() == RemoveAll(old(View()))
      ensures NoDuplicates(res) && |res| == |old(sessions)|
      ensures forall s :: s in res <==> Registered(old(View()), s)
    {
      res := GetAllSessions();
      sessions, byALCI, byBConnLCI := map[], map[], map[];
    }
  }
}

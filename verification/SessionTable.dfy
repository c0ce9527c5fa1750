/** The three session indexes of the session manager as a value: what each locked
    operation does to them, and in which sense they agree. */
module SessionTable {
  import opened Wire
  import opened RoundRobin

  // A connection is an opaque handle.
  type Conn = nat

  // X.25 call states (ITU-T X.25, section 4). P3 is never entered by the program.
  datatype Phase = P1 | P2 | P3 | P4 | P5

  /** One virtual circuit. Only its call state ever changes; two sessions may carry equal
      keys and still be different objects, which is what the ABA guards look at. */
  class Session {
    const gfi: byte
    const lciA: LciField
    const lciB: LciField
    const connB: Option<Conn>
    var state: Phase

    constructor (gfi: byte, lciA: LciField, lciB: LciField, connB: Option<Conn>, state: Phase)
      ensures this.gfi == gfi && this.lciA == lciA && this.lciB == lciB
      ensures this.connB == connB && this.state == state
    {
      this.gfi, this.lciA, this.lciB := gfi, lciA, lciB;
      this.connB, this.state := connB, state;
    }

    method SetState(newState: Phase)
      modifies this
      ensures state == newState
    {
      if state != newState {
        state := newState;
      }
    }
  }

  datatype SessionId = SessionId(lciA: nat, connB: Option<Conn>, lciB: nat)

  function Id(s: Session): SessionId {
    SessionId(s.lciA, s.connB, s.lciB)
  }

  datatype Table = Table(
    sessions: map<SessionId, Session>,
    byALCI: map<nat, Session>,
    byBConn: map<Conn, map<nat, Session>>,
    ring: Ring)

  function EmptyTable(ring: Ring): Table {
    Table(map[], map[], map[], ring)
  }

  function GetA(t: Table, lci: nat): Option<Session> {
    if lci in t.byALCI then Some(t.byALCI[lci]) else None
  }

  function GetB(t: Table, conn: Conn, lci: nat): Option<Session> {
    if conn in t.byBConn && lci in t.byBConn[conn] then Some(t.byBConn[conn][lci]) else None
  }

  function ForConn(t: Table, conn: Conn): set<Session> {
    if conn in t.byBConn then t.byBConn[conn].Values else {}
  }

  predicate Registered(t: Table, s: Session) {
    Id(s) in t.sessions && t.sessions[Id(s)] == s
  }

  /** s can be found through at least one of the three indexes. */
  ghost predicate Indexed(t: Table, s: Session) {
    || s in t.sessions.Values
    || s in t.byALCI.Values
    || exists c :: c in t.byBConn && s in t.byBConn[c].Values
  }

  predicate ValidLci(lci: int) {
    LCI_MIN <= lci <= LCI_MAX
  }

  /** Every entry sits under its own key, leads to a registered session, and no
      connection keeps an empty inner map. */
  ghost predicate Weak(t: Table) {
    && t.ring.Valid() && LCI_MIN <= t.ring.start && t.ring.start + t.ring.size <= LCI_MAX + 1
    && (forall k :: k in t.sessions ==> Id(t.sessions[k]) == k && ValidLci(t.sessions[k].lciA))
    && (forall l :: l in t.byALCI ==> t.byALCI[l].lciA == l && Registered(t, t.byALCI[l]))
    && (forall c :: c in t.byBConn ==> t.byBConn[c] != map[])
    && (forall c, l :: c in t.byBConn && l in t.byBConn[c] ==> OwnB(t, c, l, t.byBConn[c][l]))
  }

  ghost predicate OwnB(t: Table, c: Conn, l: nat, s: Session) {
    s.connB == Some(c) && s.lciB == l && Registered(t, s)
  }

  /** Every registered session is also what its A-side LCI and its (connection, LCI)
      pair lead to; with Weak this makes the three indexes bijective. */
  ghost predicate Exact(t: Table) {
    && Weak(t)
    && forall k :: k in t.sessions ==> Found(t, t.sessions[k])
  }

  ghost predicate Found(t: Table, s: Session) {
    && GetA(t, s.lciA) == Some(s)
    && (s.connB.Some? ==> GetB(t, s.connB.value, s.lciB) == Some(s))
  }

  // ---- the locked operations ----

  function DropB(m: map<Conn, map<nat, Session>>, conn: Conn, lci: nat): map<Conn, map<nat, Session>>
    requires conn in m
  {
    var inner := m[conn] - {lci};
    if inner == map[] then m - {conn} else m[conn := inner]
  }

  function PutB(m: map<Conn, map<nat, Session>>, s: Session): map<Conn, map<nat, Session>> {
    if s.connB.None? then m
    else
      var c := s.connB.value;
      var inner: map<nat, Session> := if c in m then m[c] else map[];
      m[c := inner[s.lciB := s]]
  }

  function Put(t: Table, s: Session): Table {
    t.(sessions := t.sessions[Id(s) := s],
       byALCI := t.byALCI[s.lciA := s],
       byBConn := PutB(t.byBConn, s))
  }

  datatype AddError = ZeroGFI | LciATooSmall | LciATooLarge | LciBTooSmall | LciBTooLarge

  // The first failed check decides the error.
  function AddCheck(s: Session): Option<AddError> {
    if s.gfi == 0 then Some(ZeroGFI)
    else if s.lciA < LCI_MIN then Some(LciATooSmall)
    else if s.lciA > LCI_MAX then Some(LciATooLarge)
    else if s.lciB < LCI_MIN then Some(LciBTooSmall)
    else if s.lciB > LCI_MAX then Some(LciBTooLarge)
    else None
  }

  function Add(t: Table, s: Session): Table {
    if AddCheck(s).None? then Put(t, s) else t
  }

  // s is the session that allocation creates for (conn, gfi, lci).
  predicate Allocates(t: Table, conn: Conn, gfi: byte, lci: nat, s: Session)
    requires t.ring.Valid()
  {
    && GetB(t, conn, lci).None?
    && Pick(t.ring, t.byALCI.Keys) == Some(s.lciA)
    && s.gfi == NegotiateGFI(gfi) && s.lciB == lci && s.connB == Some(conn)
  }

  function Allocate(t: Table, s: Session): Table
    requires t.ring.Has(s.lciA)
  {
    Put(t, s).(ring := t.ring.After(s.lciA))
  }

  // The A-side entry goes unconditionally, even if it belongs to another session.
  function RemoveByB(t: Table, conn: Conn, lci: nat): Table {
    match GetB(t, conn, lci)
    case None => t
    case Some(s) =>
      t.(sessions := t.sessions - {Id(s)},
         byALCI := t.byALCI - {s.lciA},
         byBConn := DropB(t.byBConn, conn, lci))
  }

  // Each index is touched only where it still leads to this very session.
  function Remove(t: Table, s: Session): Table {
    t.(sessions := if Registered(t, s) then t.sessions - {Id(s)} else t.sessions,
       byALCI := if GetA(t, s.lciA) == Some(s) then t.byALCI - {s.lciA} else t.byALCI,
       byBConn := if s.connB.Some? && GetB(t, s.connB.value, s.lciB) == Some(s)
                  then DropB(t.byBConn, s.connB.value, s.lciB) else t.byBConn)
  }

  function RemoveAll(t: Table): Table {
    EmptyTable(t.ring)
  }

  // ---- what the weak invariant buys ----

  /** Under the weak invariant one lookup decides whether a session is reachable at all. */
  lemma IndexedIffRegistered(t: Table, s: Session)
    requires Weak(t)
    ensures Indexed(t, s) <==> Registered(t, s)
  {
    if s in t.byALCI.Values {
      var l :| l in t.byALCI && t.byALCI[l] == s;
      assert Registered(t, t.byALCI[l]);
    }
    if c :| c in t.byBConn && s in t.byBConn[c].Values {
      var l :| l in t.byBConn[c] && t.byBConn[c][l] == s;
      assert OwnB(t, c, l, s);
    }
    if Registered(t, s) {
      assert t.sessions[Id(s)] in t.sessions.Values;
    }
  }

  lemma PutLookups(t: Table, s: Session)
    ensures forall r: Session :: Registered(Put(t, s), r) <==> r == s || (Registered(t, r) && Id(r) != Id(s))
    ensures forall l: nat :: GetA(Put(t, s), l) == if l == s.lciA then Some(s) else GetA(t, l)
    ensures forall c: Conn, l: nat :: GetB(Put(t, s), c, l) ==
                                        if s.connB == Some(c) && l == s.lciB then Some(s) else GetB(t, c, l)
  {
  }

  lemma PutKeepsWeak(t: Table, s: Session)
    requires Weak(t) && ValidLci(s.lciA)
    ensures Weak(Put(t, s))
  {
    var t' := Put(t, s);
    PutLookups(t, s);
    forall l | l in t'.byALCI ensures t'.byALCI[l].lciA == l && Registered(t', t'.byALCI[l]) {
      if l != s.lciA {
        assert Registered(t, t.byALCI[l]);
      }
    }
    forall c, l | c in t'.byBConn && l in t'.byBConn[c] ensures OwnB(t', c, l, t'.byBConn[c][l]) {
      if s.connB != Some(c) || l != s.lciB {
        assert c in t.byBConn && l in t.byBConn[c] && t'.byBConn[c][l] == t.byBConn[c][l];
        assert OwnB(t, c, l, t.byBConn[c][l]);
      }
    }
    if s.connB.Some? {
      assert s.lciB in t'.byBConn[s.connB.value];
    }
  }

  lemma MoveCursor(t: Table, x: nat)
    requires Weak(t) && t.ring.Has(x)
    ensures Weak(t.(ring := t.ring.After(x)))
  {
    AfterCursor(t.ring, x);
    var t' := t.(ring := t.ring.After(x));
    assert forall c, l :: c in t'.byBConn && l in t'.byBConn[c] ==>
                            OwnB(t, c, l, t.byBConn[c][l]) && OwnB(t', c, l, t'.byBConn[c][l]);
  }

  lemma DropBAt(m: map<Conn, map<nat, Session>>, conn: Conn, lci: nat)
    requires conn in m && lci in m[conn]
    requires forall c :: c in m ==> m[c] != map[]
    ensures var m' := DropB(m, conn, lci);
            && (forall c :: c in m' ==> c in m && m'[c] != map[])
            && (forall c, l :: (c in m' && l in m'[c]) <==> (c in m && l in m[c] && !(c == conn && l == lci)))
            && (forall c, l :: c in m' && l in m'[c] ==> m'[c][l] == m[c][l])
  {
    var inner := m[conn] - {lci};
    if inner == map[] {
      forall l | l in m[conn] ensures l == lci {
        assert l != lci ==> l in inner;
      }
    }
    var m' := DropB(m, conn, lci);
    forall c, l | c in m && l in m[c] && !(c == conn && l == lci) ensures c in m' && l in m'[c] {
      if c == conn {
        assert l in inner;
      }
    }
  }

  /** A guarded removal takes the session out of every index, and nothing else. */
  lemma RemoveKeepsWeak(t: Table, s: Session)
    requires Weak(t)
    ensures Weak(Remove(t, s))
    ensures !Indexed(Remove(t, s), s)
    ensures forall r: Session :: r != s ==> (Registered(Remove(t, s), r) <==> Registered(t, r))
  {
    var t' := Remove(t, s);
    RemoveLookups(t, s);
    forall l | l in t'.byALCI ensures t'.byALCI[l].lciA == l && Registered(t', t'.byALCI[l]) {
      assert GetA(t', l) == GetA(t, l) && Registered(t, t.byALCI[l]);
    }
    forall c, l | c in t'.byBConn && l in t'.byBConn[c] ensures OwnB(t', c, l, t'.byBConn[c][l]) {
      assert GetB(t', c, l) == GetB(t, c, l) && OwnB(t, c, l, t.byBConn[c][l]);
    }
    IndexedIffRegistered(t', s);
  }

  lemma RemoveLookups(t: Table, s: Session)
    requires Weak(t)
    ensures forall l: nat :: GetA(Remove(t, s), l) == if GetA(t, l) == Some(s) then None else GetA(t, l)
    ensures forall c: Conn, l: nat :: GetB(Remove(t, s), c, l) == if GetB(t, c, l) == Some(s) then None else GetB(t, c, l)
    ensures forall c :: c in Remove(t, s).byBConn ==> Remove(t, s).byBConn[c] != map[]
    ensures forall r: Session :: r != s ==> (Registered(Remove(t, s), r) <==> Registered(t, r))
  {
    if s.connB.Some? && GetB(t, s.connB.value, s.lciB) == Some(s) {
      DropBAt(t.byBConn, s.connB.value, s.lciB);
    }
    forall l: nat ensures GetA(Remove(t, s), l) == if GetA(t, l) == Some(s) then None else GetA(t, l) {
    }
    forall c: Conn, l: nat
      ensures GetB(Remove(t, s), c, l) == if GetB(t, c, l) == Some(s) then None else GetB(t, c, l)
    {
      if GetB(t, c, l) == Some(s) {
        assert OwnB(t, c, l, s);
      }
    }
  }

  /** The unguarded removal also keeps the weak invariant. */
  lemma RemoveByBKeepsWeak(t: Table, conn: Conn, lci: nat)
    requires Weak(t)
    ensures Weak(RemoveByB(t, conn, lci))
    ensures forall r: Session :: Registered(RemoveByB(t, conn, lci), r) <==>
                                   Registered(t, r) && GetB(t, conn, lci) != Some(r)
  {
    if GetB(t, conn, lci).Some? {
      DropBAt(t.byBConn, conn, lci);
      var s := GetB(t, conn, lci).value;
      assert OwnB(t, conn, lci, s);
      var t' := RemoveByB(t, conn, lci);
      forall c, l | c in t'.byBConn && l in t'.byBConn[c] ensures OwnB(t', c, l, t'.byBConn[c][l]) {
        assert OwnB(t, c, l, t.byBConn[c][l]);
      }
    }
  }

  /** Dropping by (connection, LCI) is the guarded removal of that session exactly when
      the session's A-side LCI does not lead to somebody else. */
  lemma RemoveByBIsRemove(t: Table, conn: Conn, lci: nat, s: Session)
    requires Weak(t) && GetB(t, conn, lci) == Some(s)
    ensures RemoveByB(t, conn, lci) == Remove(t, s) <==> (s.lciA in t.byALCI ==> t.byALCI[s.lciA] == s)
  {
    if s.lciA !in t.byALCI {
      assert t.byALCI - {s.lciA} == t.byALCI;
    } else if t.byALCI[s.lciA] != s {
      assert s.lciA in Remove(t, s).byALCI && s.lciA !in RemoveByB(t, conn, lci).byALCI;
    }
  }

  // ---- exactness ----

  // Neither key of s leads to a session with another identity.
  predicate NoClash(t: Table, s: Session) {
    && (GetA(t, s.lciA).Some? ==> Id(GetA(t, s.lciA).value) == Id(s))
    && (s.connB.Some? && GetB(t, s.connB.value, s.lciB).Some? ==>
          Id(GetB(t, s.connB.value, s.lciB).value) == Id(s))
  }

  /** Overwriting is harmless exactly when it overwrites a session of the same identity
      or nobody: otherwise a registered session loses one of its two lookups. */
  lemma PutExactIff(t: Table, s: Session)
    requires Exact(t) && ValidLci(s.lciA)
    ensures Exact(Put(t, s)) <==> NoClash(t, s)
  {
    var t' := Put(t, s);
    PutKeepsWeak(t, s);
    if NoClash(t, s) {
      forall k | k in t'.sessions ensures Found(t', t'.sessions[k]) {
        PutFound(t, s, k);
      }
    } else {
      var r := if GetA(t, s.lciA).Some? && Id(GetA(t, s.lciA).value) != Id(s) then GetA(t, s.lciA).value
               else GetB(t, s.connB.value, s.lciB).value;
      PutLoses(t, s, r);
    }
  }

  lemma PutFound(t: Table, s: Session, k: SessionId)
    requires Exact(t) && NoClash(t, s) && ValidLci(s.lciA) && k in Put(t, s).sessions
    ensures Found(Put(t, s), Put(t, s).sessions[k])
  {
    if k != Id(s) {
      assert Found(t, t.sessions[k]);
    }
  }

  lemma PutLoses(t: Table, s: Session, r: Session)
    requires Weak(t) && Registered(t, r) && Id(r) != Id(s)
    requires r.lciA == s.lciA || (r.connB.Some? && r.connB == s.connB && r.lciB == s.lciB)
    ensures !Exact(Put(t, s))
  {
    assert Put(t, s).sessions[Id(r)] == r;
    assert !Found(Put(t, s), r);
  }

  lemma AllocateKeepsExact(t: Table, conn: Conn, gfi: byte, lci: nat, s: Session)
    requires Weak(t) && Allocates(t, conn, gfi, lci, s)
    ensures t.ring.Has(s.lciA) && Weak(Allocate(t, s)) && s.lciA !in t.byALCI
    ensures Exact(t) ==> Exact(Allocate(t, s))
  {
    PickIsNearestFree(t.ring, t.byALCI.Keys);
    PutKeepsWeak(t, s);
    assert Weak(Allocate(t, s));
    if Exact(t) {
      PutExactIff(t, s);
      SameIndexes(Put(t, s), Allocate(t, s));
    }
  }

  // Exactness does not look at the allocator.
  lemma SameIndexes(t: Table, t': Table)
    requires Exact(t) && Weak(t') && t == t'.(ring := t.ring)
    ensures Exact(t')
  {
    assert forall c: Conn, l: nat :: GetB(t', c, l) == GetB(t, c, l);
    forall k | k in t'.sessions ensures Found(t', t'.sessions[k]) {
      assert Found(t, t.sessions[k]);
    }
  }

  lemma RemoveKeepsExact(t: Table, s: Session)
    requires Exact(t)
    ensures Exact(Remove(t, s))
  {
    RemoveKeepsWeak(t, s);
    RemoveLookups(t, s);
    var t' := Remove(t, s);
    forall k | k in t'.sessions ensures Found(t', t'.sessions[k]) {
      assert Found(t, t.sessions[k]) && Registered(t', t'.sessions[k]);
      assert t'.sessions[k] in t'.sessions.Values;
    }
  }

  /** In an exact table the A-side lookup, the B-side lookup and registration name the
      same sessions: both keys are injective and every lookup answers with its owner. */
  lemma ExactIsBijection(t: Table)
    requires Exact(t)
    ensures forall s: Session, l: nat :: GetA(t, l) == Some(s) <==> Registered(t, s) && s.lciA == l
    ensures forall s: Session, c: Conn, l: nat :: GetB(t, c, l) == Some(s) <==>
                                        Registered(t, s) && s.connB == Some(c) && s.lciB == l
    ensures |t.byALCI| == |t.sessions|
  {
    forall s: Session, l: nat ensures GetA(t, l) == Some(s) <==> Registered(t, s) && s.lciA == l {
      ALookup(t, s, l);
    }
    forall s: Session, c: Conn, l: nat
      ensures GetB(t, c, l) == Some(s) <==> Registered(t, s) && s.connB == Some(c) && s.lciB == l
    {
      BLookup(t, s, c, l);
    }
    SameSize(t);
  }

  lemma ALookup(t: Table, s: Session, l: nat)
    requires Exact(t)
    ensures GetA(t, l) == Some(s) <==> Registered(t, s) && s.lciA == l
  {
    if Registered(t, s) && s.lciA == l {
      assert Found(t, t.sessions[Id(s)]);
    }
  }

  lemma BLookup(t: Table, s: Session, c: Conn, l: nat)
    requires Exact(t)
    ensures GetB(t, c, l) == Some(s) <==> Registered(t, s) && s.connB == Some(c) && s.lciB == l
  {
    if Registered(t, s) && s.connB == Some(c) && s.lciB == l {
      assert Found(t, t.sessions[Id(s)]);
    }
    assert GetB(t, c, l) == Some(s) ==> OwnB(t, c, l, s);
  }

  lemma SameSize(t: Table)
    requires Exact(t)
    ensures |t.byALCI| == |t.sessions|
  {
    var ids := set l | l in t.byALCI :: Id(t.byALCI[l]);
    assert ids == t.sessions.Keys by {
      forall k | k in t.sessions ensures k in ids {
        assert Found(t, t.sessions[k]);
      }
    }
    ImageSize(t, t.byALCI.Keys, ids);
    assert |t.byALCI.Keys| == |t.byALCI| && |t.sessions.Keys| == |t.sessions|;
  }

  lemma {:induction false} ImageSize(t: Table, ls: set<nat>, ids: set<SessionId>)
    requires Exact(t) && ls <= t.byALCI.Keys
    requires ids == set l | l in ls :: Id(t.byALCI[l])
    ensures |ids| == |ls|
  {
    if ls != {} {
      var l :| l in ls;
      var rest := ls - {l};
      var restIds := set k | k in rest :: Id(t.byALCI[k]);
      ImageSize(t, rest, restIds);
      assert ids == restIds + {Id(t.byALCI[l])};
      assert Id(t.byALCI[l]) !in restIds;
    }
  }

  // ---- whole runs ----

  datatype Op =
    | OpAdd(s: Session)
    | OpAllocate(conn: Conn, gfi: byte, lci: nat, s: Session)
    | OpRemoveByB(conn: Conn, lci: nat)
    | OpRemove(s: Session)
    | OpRemoveAll

  // Allocation answers with the session already there, or fails, without a change.
  predicate Created(t: Table, op: Op) {
    op.OpAdd? ||
    (op.OpAllocate? && t.ring.Valid() && Allocates(t, op.conn, op.gfi, op.lci, op.s) && t.ring.Has(op.s.lciA))
  }

  function Perform(t: Table, op: Op): Table {
    match op
    case OpAdd(s) => Add(t, s)
    case OpAllocate(conn, gfi, lci, s) => if Created(t, op) then Allocate(t, s) else t
    case OpRemoveByB(conn, lci) => RemoveByB(t, conn, lci)
    case OpRemove(s) => Remove(t, s)
    case OpRemoveAll => RemoveAll(t)
  }

  ghost predicate TableRun(ts: seq<Table>, ops: seq<Op>) {
    && |ts| == |ops| + 1
    && forall i :: 0 <= i < |ops| ==> ts[i + 1] == Perform(ts[i], ops[i])
  }

  // The session an operation creates.
  function Creates(t: Table, op: Op): set<Session> {
    if Created(t, op) then {op.s} else {}
  }

  lemma OpKeepsWeak(t: Table, op: Op)
    requires Weak(t)
    ensures Weak(Perform(t, op))
    ensures forall r: Session :: Registered(Perform(t, op), r) && r !in Creates(t, op) ==> Registered(t, r)
  {
    match op {
      case OpAdd(s) =>
        if AddCheck(s).None? {
          PutKeepsWeak(t, s);
        }
      case OpAllocate(conn, gfi, lci, s) =>
        if Created(t, op) {
          AllocateKeepsExact(t, conn, gfi, lci, s);
        }
      case OpRemoveByB(conn, lci) => RemoveByBKeepsWeak(t, conn, lci);
      case OpRemove(s) => RemoveKeepsWeak(t, s);
      case OpRemoveAll =>
    }
  }

  /** Every run of manager operations, overwriting additions included, keeps every entry
      under its own key with its session registered. */
  lemma {:induction false} RunKeepsWeak(ts: seq<Table>, ops: seq<Op>, n: nat)
    requires TableRun(ts, ops) && Weak(ts[0]) && n < |ts|
    ensures Weak(ts[n])
  {
    if n > 0 {
      RunKeepsWeak(ts, ops, n - 1);
      OpKeepsWeak(ts[n - 1], ops[n - 1]);
      assert ts[n - 1 + 1] == Perform(ts[n - 1], ops[n - 1]);
    }
  }

  /** The indexes stay in bijection throughout a run exactly when no accepted addition
      clashes with a session of another identity at the moment it is made. */
  lemma {:induction false} RunExactIff(ts: seq<Table>, ops: seq<Op>, n: nat)
    requires TableRun(ts, ops) && Exact(ts[0]) && n < |ts|
    ensures (forall i :: 0 <= i <= n ==> Exact(ts[i])) <==>
            (forall i :: 0 <= i < n && ops[i].OpAdd? && AddCheck(ops[i].s).None? ==> NoClash(ts[i], ops[i].s))
  {
    if n > 0 {
      RunExactIff(ts, ops, n - 1);
      if forall i :: 0 <= i <= n - 1 ==> Exact(ts[i]) {
        OpExactIff(ts[n - 1], ops[n - 1]);
        assert ts[n - 1 + 1] == Perform(ts[n - 1], ops[n - 1]);
      }
    }
  }

  lemma OpExactIff(t: Table, op: Op)
    requires Exact(t)
    ensures Exact(Perform(t, op)) <==> (op.OpAdd? && AddCheck(op.s).None? ==> NoClash(t, op.s))
  {
    match op {
      case OpAdd(s) =>
        if AddCheck(s).None? {
          PutExactIff(t, s);
        }
      case OpAllocate(conn, gfi, lci, s) =>
        if Created(t, op) {
          AllocateKeepsExact(t, conn, gfi, lci, s);
        }
      case OpRemoveByB(conn, lci) =>
        if GetB(t, conn, lci).Some? {
          var s := GetB(t, conn, lci).value;
          assert Found(t, t.sessions[Id(s)]);
          RemoveByBIsRemove(t, conn, lci, s);
          RemoveKeepsExact(t, s);
        }
      case OpRemove(s) => RemoveKeepsExact(t, s);
      case OpRemoveAll =>
    }
  }

  /** tun-gateway's LCI translation is inverse on live calls: whatever reaches the kernel
      from (conn, b) comes back from the kernel to that connection under b, untouched. */
  lemma TranslationInverse(t: Table, conn: Conn, frame: seq<byte>)
    requires Exact(t) && |frame| >= 2
    requires GetB(t, conn, GetLCI(frame)).Some?
    ensures ValidLci(GetB(t, conn, GetLCI(frame)).value.lciA)
    ensures var s := GetB(t, conn, GetLCI(frame)).value;
            var up := Relabel(frame, s.lciA);
            && GetA(t, GetLCI(up)) == Some(s)
            && s.connB == Some(conn) && s.lciB == GetLCI(frame)
            && Relabel(up, s.lciB) == frame
            && GetGFI(up) == GetGFI(frame) && up[2..] == frame[2..]
  {
    var s := GetB(t, conn, GetLCI(frame)).value;
    assert Found(t, t.sessions[Id(s)]);
    RelabelFrame(frame, s.lciA);
    RelabelUndo(frame, s.lciA);
  }
}

/** Runs of tun-gateway from its start that end where the races lead. */
module TunGatewayRuns {
  import opened Wire
  import RoundRobin
  import opened SessionTable
  import opened SessionManager
  import opened TunGateway
  import opened TunGatewaySafety

  // A run and its steps, from the start.
  datatype Trace = Trace(gs: seq<Gw>, acts: seq<Action>)

  ghost predicate StepAt(tr: Trace, i: nat)
    requires |tr.gs| == |tr.acts| + 1 && i < |tr.acts|
  {
    Next(tr.gs[i], tr.acts[i], tr.gs[i + 1])
  }

  ghost predicate Runs(tr: Trace) {
    && |tr.gs| == |tr.acts| + 1 && Init(tr.gs[0])
    && forall i :: 0 <= i < |tr.acts| ==> StepAt(tr, i)
  }

  lemma RunsIsRun(tr: Trace)
    requires Runs(tr)
    ensures Run(tr.gs, tr.acts)
  {
    forall i | 0 <= i < |tr.acts| ensures Next(tr.gs[i], tr.acts[i], tr.gs[i + 1]) {
      assert StepAt(tr, i);
    }
  }

  function Last(tr: Trace): Gw
    requires tr.gs != []
  {
    tr.gs[|tr.gs| - 1]
  }

  // Trace tr is a run that ends in g.
  ghost predicate At(tr: Trace, g: Gw) {
    Runs(tr) && Last(tr) == g
  }

  lemma Then(tr: Trace, g: Gw, a: Action, g': Gw) returns (tr': Trace)
    requires At(tr, g) && Next(g, a, g')
    ensures At(tr', g') && tr' == Trace(tr.gs + [g'], tr.acts + [a])
  {
    tr' := Trace(tr.gs + [g'], tr.acts + [a]);
    forall i | 0 <= i < |tr'.acts| ensures StepAt(tr', i) {
      if i < |tr.acts| {
        assert StepAt(tr, i);
      }
    }
  }

  function Start(ring: RoundRobin.Ring): Gw {
    Gw(EmptyTable(ring), map[], Connecting, false, RIdle, map[], map[], SIdle, [], {}, {})
  }

  lemma StartTrace(ring: RoundRobin.Ring) returns (tr: Trace)
    requires Weak(EmptyTable(ring))
    ensures At(tr, Start(ring))
  {
    tr := Trace([Start(ring)], []);
  }

  // ---- single steps ----

  lemma Reads(tr: Trace, g: Gw, p: Bytes) returns (tr': Trace)
    requires At(tr, g) && g.reader == RIdle
    ensures At(tr', g.(reader := AfterReadTun(HEADER_DATA, p)))
  {
    tr' := Then(tr, g, ReadTun(HEADER_DATA, p), g.(reader := AfterReadTun(HEADER_DATA, p)));
  }

  lemma ReaderDoes(tr: Trace, g: Gw, intercept: bool, id: nat, pc: ReaderPc, e: Effect) returns (tr': Trace)
    requires At(tr, g) && id !in g.dials && !g.reader.RSweep?
    requires g.reader.RRoute? && intercept ==> Interceptable(g.reader.p)
    requires ReaderStep(g, intercept, [], id) == (pc, e)
    ensures At(tr', Apply(g, e).(reader := pc))
  {
    tr' := Then(tr, g, ReaderGo(intercept, [], id), Apply(g, e).(reader := pc));
  }

  lemma ConnDoes(tr: Trace, g: Gw, c: Conn, s: Session, order: seq<Session>, pc: ConnPc) returns (tr': Trace)
    requires At(tr, g) && c in g.conns && !g.conns[c].CAllocate?
    requires g.conns[c].CCleanup? ==> Lists(order, ForConn(g.t, c))
    requires ConnStep(g, c, s, order) == (pc, Quiet)
    ensures At(tr', g.(conns := g.conns[c := pc]))
  {
    tr' := Then(tr, g, ConnGo(c, s, order), g.(conns := g.conns[c := pc]));
  }

  lemma Fails(tr: Trace, g: Gw, c: Conn) returns (tr': Trace)
    requires At(tr, g) && c in g.conns && g.conns[c].CIdle?
    ensures At(tr', g.(conns := g.conns[c := CCleanup]))
  {
    tr' := Then(tr, g, ConnFails(c, None), g.(conns := g.conns[c := CCleanup]));
  }

  lemma DialDoes(tr: Trace, g: Gw, id: nat, dialed: Option<Conn>, s: Session, pc: DialPc, e: Effect) returns (tr': Trace)
    requires At(tr, g) && id in g.dials && DialedWith(g, id, s) && (dialed.Some? ==> dialed.value !in g.conns)
    requires DialStep(g, id, dialed, s) == (pc, e)
    ensures At(tr', Apply(g, e).(dials := g.dials[id := pc]))
  {
    tr' := Then(tr, g, DialGo(id, dialed, s), Apply(g, e).(dials := g.dials[id := pc]));
  }

  // ---- the legs of a run ----

  // The gateway with its link up and nothing else done.
  function Up(ring: RoundRobin.Ring): Gw {
    Start(ring).(link := Operational, log := [RestartConfirm([16, 0, RESTART_CONFIRM])])
  }

  /** The kernel restarts the link. */
  lemma LinkUp(ring: RoundRobin.Ring) returns (tr: Trace)
    requires Weak(EmptyTable(ring))
    ensures At(tr, Up(ring))
  {
    var p: Bytes := [16, 0, RESTART_REQUEST];
    var g := Start(ring);
    tr := StartTrace(ring);
    tr := Reads(tr, g, p);
    tr := ReaderDoes(tr, g.(reader := RRestart(p)), false, 0, RRestartSeen(p, false), Quiet);
    tr := ReaderDoes(tr, g.(reader := RRestartSeen(p, false)), false, 0, RRestartConfirm(p, false), Quiet);
    tr := RestartAnswered(tr, g.(reader := RRestartConfirm(p, false)), p);
  }

  lemma RestartAnswered(tr: Trace, g: Gw, p: Bytes) returns (tr': Trace)
    requires At(tr, g) && g.reader == RRestartConfirm(p, false) && p == [16, 0, RESTART_REQUEST] && g.dials == map[]
    ensures At(tr', g.(reader := RIdle, link := Operational, log := g.log + [RestartConfirm([16, 0, RESTART_CONFIRM])]))
  {
    var o := RestartConfirm([16, 0, RESTART_CONFIRM]);
    tr' := ReaderDoes(tr, g, false, 0, RRestartLink, Emit(o));
    tr' := ReaderDoes(tr', g.(reader := RRestartLink, log := g.log + [o]), false, 0, RIdle, SetLink(Operational));
  }

  /** The kernel calls on an LCI nobody holds, and a dialer is spawned for it. */
  lemma Intercepted(tr: Trace, g: Gw, p: Bytes, id: nat) returns (tr': Trace, g': Gw)
    requires At(tr, g) && g.reader == RIdle && id !in g.dials
    requires GetType(p) == CALL_REQUEST && Interceptable(p) && GetA(g.t, GetLCI(p)).None?
    ensures At(tr', g') && g' == g.(dials := g.dials[id := DStart(p)])
  {
    tr' := Reads(tr, g, p);
    tr' := ReaderDoes(tr', g.(reader := RCall(HEADER_DATA, p)), false, id, RRoute(HEADER_DATA, p), Quiet);
    tr' := ReaderDoes(tr', g.(reader := RRoute(HEADER_DATA, p)), true, id, RIdle, SpawnDial(id, p));
    g' := g.(dials := g.dials[id := DStart(p)]);
  }

  /** The dialer gets a connection. */
  lemma Dialed(tr: Trace, g: Gw, p: Bytes, id: nat, c: Conn, any: Session) returns (tr': Trace, g': Gw)
    requires At(tr, g) && !g.shuttingDown && id in g.dials && g.dials[id] == DStart(p) && c !in g.conns
    ensures At(tr', g')
    ensures g' == g.(conns := g.conns[c := CDialed], dials := g.dials[id := DDial(p)][id := DAdd(p, c)])
  {
    tr' := DialDoes(tr, g, id, None, any, DDial(p), Quiet);
    var g1 := g.(dials := g.dials[id := DDial(p)]);
    tr' := DialDoes(tr', g1, id, Some(c), any, DAdd(p, c), SetConn(c, CDialed));
    g' := g.(conns := g.conns[c := CDialed], dials := g.dials[id := DDial(p)][id := DAdd(p, c)]);
  }

  /** It adds its session. */
  lemma Added(tr: Trace, g: Gw, p: Bytes, id: nat, c: Conn, s: Session) returns (tr': Trace, g': Gw)
    requires At(tr, g) && id in g.dials && g.dials[id] == DAdd(p, c) && DialedWith(g, id, s) && AddCheck(s).None?
    ensures At(tr', g')
    ensures g' == g.(t := Put(g.t, s), born := g.born + {s}, phase := g.phase[s := P2],
                     dials := g.dials[id := DSpawn(p, c)])
  {
    tr' := DialDoes(tr, g, id, None, s, DSpawn(p, c), Do(OpAdd(s)));
    g' := Apply(g, Do(OpAdd(s))).(dials := g.dials[id := DSpawn(p, c)]);
  }

  // One step of a connection.
  function Moved(g: Gw, c: Conn, pc: ConnPc): Gw {
    g.(conns := g.conns[c := pc])
  }

  lemma Spawned(tr: Trace, g: Gw, p: Bytes, id: nat, c: Conn, any: Session) returns (tr': Trace)
    requires At(tr, g) && id in g.dials && g.dials[id] == DSpawn(p, c)
    ensures At(tr', Moved(g, c, CIdle(Gateway)).(dials := g.dials[id := DSend(p, c)]))
  {
    tr' := DialDoes(tr, g, id, None, any, DSend(p, c), SetConn(c, CIdle(Gateway)));
  }

  lemma SnapshotTaken(tr: Trace, g: Gw, c: Conn, s: Session) returns (tr': Trace)
    requires At(tr, g) && c in g.conns && g.conns[c] == CCleanup && ForConn(g.t, c) == {s}
    ensures At(tr', Moved(g, c, CClean([s], |g.log|)))
  {
    assert Elems([s]) == {s};
    tr' := ConnDoes(tr, g, c, s, [s], CClean([s], |g.log|));
  }

  lemma GuardEntered(tr: Trace, g: Gw, c: Conn, s: Session, since: nat) returns (tr': Trace)
    requires At(tr, g) && c in g.conns && g.conns[c] == CClean([s], since) && PhaseOf(g, s) == P2
    ensures At(tr', Moved(g, c, CCleanGuard([s], since)))
  {
    tr' := ConnDoes(tr, g, c, s, [], CCleanGuard([s], since));
  }

  lemma MovedTwice(g: Gw, c: Conn, pc: ConnPc, pc': ConnPc)
    ensures Moved(Moved(g, c, pc), c, pc') == Moved(g, c, pc')
  {
    assert g.conns[c := pc][c := pc'] == g.conns[c := pc'];
  }

  lemma Unguarded(tr: Trace, g: Gw, c: Conn, s: Session) returns (tr': Trace)
    requires At(tr, Moved(g, c, CCleanup))
    requires ForConn(g.t, c) == {s} && PhaseOf(g, s) == P2
    ensures At(tr', Moved(g, c, CCleanGuard([s], |g.log|)))
  {
    var since := |g.log|;
    tr' := SnapshotTaken(tr, Moved(g, c, CCleanup), c, s);
    MovedTwice(g, c, CCleanup, CClean([s], since));
    tr' := GuardEntered(tr', Moved(g, c, CClean([s], since)), c, s, since);
    MovedTwice(g, c, CClean([s], since), CCleanGuard([s], since));
  }

  /** The connection's reader starts, fails at once, and its cleanup comes to the guard. */
  lemma GuardReached(tr: Trace, g: Gw, p: Bytes, id: nat, c: Conn, s: Session) returns (tr': Trace, g': Gw)
    requires At(tr, g) && id in g.dials && g.dials[id] == DSpawn(p, c)
    requires ForConn(g.t, c) == {s} && PhaseOf(g, s) == P2
    ensures At(tr', g') && g' == Moved(g, c, CCleanGuard([s], |g.log|)).(dials := g.dials[id := DSend(p, c)])
  {
    tr' := Spawned(tr, g, p, id, c, s);
    var g1 := g.(dials := g.dials[id := DSend(p, c)]);
    assert Moved(g1, c, CIdle(Gateway)) == Moved(g, c, CIdle(Gateway)).(dials := g.dials[id := DSend(p, c)]);
    tr' := Fails(tr', Moved(g1, c, CIdle(Gateway)), c);
    MovedTwice(g1, c, CIdle(Gateway), CCleanup);
    tr' := Unguarded(tr', g1, c, s);
    g' := Moved(g1, c, CCleanGuard([s], |g.log|));
  }

  function ClearPacket(p: Bytes): Bytes
    requires |p| >= 2
  {
    [p[0], p[1], CLEAR_REQUEST]
  }

  /** The kernel clears the call; the reader confirms and is about to remove the session. */
  lemma ClearRead(tr: Trace, g: Gw, q: Bytes, s: Session, id: nat) returns (tr': Trace, g': Gw)
    requires At(tr, g) && g.reader == RIdle && id !in g.dials
    requires |q| == 3 && GetType(q) == CLEAR_REQUEST && GetA(g.t, GetLCI(q)) == Some(s)
    ensures At(tr', g')
    ensures g' == g.(phase := g.phase[s := P5], log := g.log + [ToKernel([q[0], q[1], CLEAR_CONFIRM])],
                     reader := RRemove(q, s))
  {
    tr' := Reads(tr, g, q);
    tr' := ReaderDoes(tr', g.(reader := RLookup(HEADER_DATA, q)), false, id, RHave(HEADER_DATA, q, s), Quiet);
    tr' := ReaderDoes(tr', g.(reader := RHave(HEADER_DATA, q, s)), false, id, RClearConfirm(q, s), Mark(s, P5));
    g' := g.(reader := RClearConfirm(q, s), phase := g.phase[s := P5]);
    tr' := Confirmed(tr', g', q, s, id);
    g' := g'.(log := g.log + [ToKernel([q[0], q[1], CLEAR_CONFIRM])], reader := RRemove(q, s));
  }

  /** It removes the session and hands the clear over. */
  lemma HandedOver(tr: Trace, g: Gw, q: Bytes, s: Session, id: nat) returns (tr': Trace, g': Gw)
    requires At(tr, g) && g.reader == RRemove(q, s) && id !in g.dials
    ensures At(tr', g')
    ensures g' == g.(t := Remove(g.t, s), reader := RIdle, log := g.log + [ReaderClear(s, Rewrite(q, s.lciB))])
  {
    tr' := Removed(tr, g, q, s, id);
    g' := g.(t := Remove(g.t, s), reader := RClearSend(q, s));
    tr' := Sent(tr', g', q, s, id);
    g' := g'.(log := g.log + [ReaderClear(s, Rewrite(q, s.lciB))], reader := RIdle);
  }

  lemma Confirmed(tr: Trace, g: Gw, q: Bytes, s: Session, id: nat) returns (tr': Trace)
    requires At(tr, g) && g.reader == RClearConfirm(q, s) && id !in g.dials && |q| == 3
    ensures At(tr', g.(log := g.log + [ToKernel([q[0], q[1], CLEAR_CONFIRM])], reader := RRemove(q, s)))
  {
    tr' := ReaderDoes(tr, g, false, id, RRemove(q, s), Emit(ToKernel([q[0], q[1], CLEAR_CONFIRM])));
  }

  lemma Sent(tr: Trace, g: Gw, q: Bytes, s: Session, id: nat) returns (tr': Trace)
    requires At(tr, g) && g.reader == RClearSend(q, s) && id !in g.dials
    ensures At(tr', g.(log := g.log + [ReaderClear(s, Rewrite(q, s.lciB))], reader := RIdle))
  {
    tr' := ReaderDoes(tr, g, false, id, RIdle, Emit(ReaderClear(s, Rewrite(q, s.lciB))));
  }

  lemma Removed(tr: Trace, g: Gw, q: Bytes, s: Session, id: nat) returns (tr': Trace)
    requires At(tr, g) && g.reader == RRemove(q, s) && id !in g.dials
    ensures At(tr', g.(t := Remove(g.t, s), reader := RClearSend(q, s)))
  {
    tr' := ReaderDoes(tr, g, false, id, RClearSend(q, s), Do(OpRemove(s)));
    var g' := Apply(g, Do(OpRemove(s)));
    assert g' == g.(t := Remove(g.t, s)) by {
      assert g.born + {} == g.born;
    }
  }

  // ---- the runs ----

  // Two sessions that dialers make for a call p on LCI 1, on connections 0 and 1.
  predicate CallsOnOne(p: Bytes, s: Session, r: Session) {
    && |p| >= 3 && Interceptable(p) && GetType(p) == CALL_REQUEST && GetLCI(p) == 1 && GetGFI(p) == 1
    && s.gfi == r.gfi == 1 && s.lciA == s.lciB == r.lciA == r.lciB == 1
    && s.connB == Some(0) && r.connB == Some(1)
  }

  // There are such: the shortest call request has two empty addresses and nothing else.
  method SomeCallsOnOne() returns (p: Bytes, s: Session, r: Session)
    ensures CallsOnOne(p, s, r)
  {
    p := [16, 1, CALL_REQUEST, 0];
    assert ParseX25(p).value.payload == [0] && CallRequest.AddressBytes([0]) == 0;
    s := new Session(1, 1, 1, Some(0), P2);
    r := new Session(1, 1, 1, Some(1), P2);
  }

  lemma FirstTable(ring: RoundRobin.Ring, s: Session)
    requires Weak(EmptyTable(ring)) && ValidLci(s.lciA) && s.connB == Some(0)
    ensures var t := Put(EmptyTable(ring), s);
            Exact(t) && ForConn(t, 0) == {s} && GetA(t, s.lciA) == Some(s)
  {
    PutExactIff(EmptyTable(ring), s);
    assert Put(EmptyTable(ring), s).byBConn[0] == map[s.lciB := s];
  }

  // A stale cleanup CLEAR has just been written: it names the LCI of r, for s.
  predicate EndsStale(g: Gw, s: Session, r: Session) {
    && r != s && GetA(g.t, r.lciA) == Some(r) && !Registered(g.t, s)
    && g.log != [] && g.log[|g.log| - 1].CleanupClear? && g.log[|g.log| - 1].s == s
    && GetLCI(g.log[|g.log| - 1].data) == r.lciA
  }

  // One dialer, or two for the same call p, have got their connections; that is all so far.
  predicate Dialing(g: Gw, ring: RoundRobin.Ring, p: Bytes, twice: bool) {
    && g == Up(ring).(conns := g.conns, dials := g.dials)
    && g.dials.Keys == g.conns.Keys == (if twice then {0, 1} else {0})
    && g.dials[0] == DAdd(p, 0) && (twice ==> g.dials[1] == DAdd(p, 1))
  }

  lemma UpToDialing(ring: RoundRobin.Ring, p: Bytes, any: Session, twice: bool) returns (tr: Trace, g: Gw)
    requires Weak(EmptyTable(ring)) && GetType(p) == CALL_REQUEST && Interceptable(p)
    ensures At(tr, g) && Dialing(g, ring, p, twice)
  {
    tr := LinkUp(ring);
    tr, g := Intercepted(tr, Up(ring), p, 0);
    if twice {
      tr, g := Intercepted(tr, g, p, 1);
    }
    tr, g := Dialed(tr, g, p, 0, 0, any);
    if twice {
      tr, g := Dialed(tr, g, p, 1, 1, any);
    }
  }

  // The first dialer has added its session.
  predicate FirstAdded(g: Gw, ring: RoundRobin.Ring, p: Bytes, s: Session, twice: bool) {
    && Alone(g, ring, s, twice) && PhaseOf(g, s) == P2 && |g.log| == 1
    && g.dials[0] == DSpawn(p, 0) && (twice ==> g.dials[1] == DAdd(p, 1))
  }

  predicate Alone(g: Gw, ring: RoundRobin.Ring, s: Session, twice: bool) {
    && g.reader == RIdle && !g.shuttingDown && g.t == Put(EmptyTable(ring), s) && g.born == {s}
    && g.dials.Keys == g.conns.Keys == (if twice then {0, 1} else {0})
  }

  lemma UpToAdded(ring: RoundRobin.Ring, p: Bytes, s: Session, r: Session, twice: bool) returns (tr: Trace, g: Gw)
    requires Weak(EmptyTable(ring)) && CallsOnOne(p, s, r)
    ensures At(tr, g) && FirstAdded(g, ring, p, s, twice)
  {
    tr, g := UpToDialing(ring, p, s, twice);
    tr, g := Added(tr, g, p, 0, 0, s);
  }

  /** The call of s is dialed, added and lost again; its cleanup is about to ask the guard. The
      kernel may have called twice before s is added; then a second dialer is waiting. */
  lemma UpToGuard(ring: RoundRobin.Ring, p: Bytes, s: Session, r: Session, twice: bool) returns (tr: Trace, g: Gw)
    requires Weak(EmptyTable(ring)) && CallsOnOne(p, s, r)
    ensures At(tr, g) && OnGuard(g, ring, p, s, twice)
  {
    tr, g := UpToAdded(ring, p, s, r, twice);
    FirstTable(ring, s);
    tr, g := GuardReached(tr, g, p, 0, 0, s);
  }

  predicate OnGuard(g: Gw, ring: RoundRobin.Ring, p: Bytes, s: Session, twice: bool) {
    && Alone(g, ring, s, twice)
    && g.conns[0] == CCleanGuard([s], 1) && (twice ==> g.dials[1] == DAdd(p, 1))
  }

  /** In the ordinary order of events, from the start: the cleanup's guard passes, the kernel
      clears the call and reuses its LCI, a dialer adds the new call, and the cleanup's CLEAR
      goes out on the LCI that now belongs to it. */
  lemma StaleClearHappens(ring: RoundRobin.Ring, p: Bytes, s: Session, r: Session) returns (tr: Trace)
    requires Weak(EmptyTable(ring)) && CallsOnOne(p, s, r)
    ensures Run(tr.gs, tr.acts) && EndsStale(tr.gs[|tr.acts|], s, r)
  {
    var g;
    tr, g := UpToGuard(ring, p, s, r, false);
    FirstTable(ring, s);
    RemoveLookups(g.t, s);
    RemoveKeepsWeak(g.t, s);
    tr, g := Guarded(tr, g, s);
    tr, g := ClearRead(tr, g, ClearPacket(p), s, 1);
    tr, g := HandedOver(tr, g, ClearPacket(p), s, 1);
    tr, g := CalledAgain(tr, g, p, s, r);
    tr := StaleWritten(tr, g, s, r);
    RunsIsRun(tr);
  }

  // The kernel calls on the LCI once more, and the call becomes r.
  lemma CalledAgain(tr: Trace, g: Gw, p: Bytes, s: Session, r: Session) returns (tr': Trace, g': Gw)
    requires At(tr, g) && CallsOnOne(p, s, r) && GetA(g.t, 1).None? && g.reader == RIdle && !g.shuttingDown
    requires 1 !in g.dials && 1 !in g.conns && r !in g.born
    ensures At(tr', g') && g'.t == Put(g.t, r) && g'.conns == g.conns[1 := CDialed]
  {
    tr', g' := Intercepted(tr, g, p, 1);
    tr', g' := Dialed(tr', g', p, 1, 1, r);
    tr', g' := Added(tr', g', p, 1, 1, r);
  }

  lemma Guarded(tr: Trace, g: Gw, s: Session) returns (tr': Trace, g': Gw)
    requires At(tr, g) && 0 in g.conns && g.conns[0] == CCleanGuard([s], 1) && GetA(g.t, s.lciA) == Some(s)
    ensures At(tr', g') && g' == Moved(g, 0, CCleanWrite([s], 1))
  {
    g' := Moved(g, 0, CCleanWrite([s], 1));
    tr' := ConnDoes(tr, g, 0, s, [], CCleanWrite([s], 1));
  }

  lemma CleanupWrites(g: Gw, c: Conn, s: Session, since: nat) returns (g': Gw)
    requires c in g.conns && g.conns[c] == CCleanWrite([s], since)
    ensures Next(g, ConnGo(c, s, []), g')
    ensures g'.log == g.log + [CleanupClear(s, ClearRequest(s.gfi, s.lciA, CAUSE_OUT_OF_ORDER, 0), since)]
    ensures g'.t == g.t
  {
    var (pc, e) := ConnStep(g, c, s, []);
    g' := Apply(g, e).(conns := g.conns[c := pc]);
  }

  lemma StaleWritten(tr: Trace, g: Gw, s: Session, r: Session) returns (tr': Trace)
    requires At(tr, g) && 0 in g.conns && g.conns[0] == CCleanWrite([s], 1)
    requires GetA(g.t, r.lciA) == Some(r) && r != s && s.lciA == r.lciA == 1 && !Registered(g.t, s)
    ensures Runs(tr') && EndsStale(Last(tr'), s, r)
  {
    var g' := CleanupWrites(g, 0, s, 1);
    ClearNames(s.gfi, s.lciA, CAUSE_OUT_OF_ORDER);
    tr' := Then(tr, g, ConnGo(0, s, []), g');
  }

  /** In another order, also from the start: the kernel calls twice on one LCI before the first
      call's session is added, and the second dialer adds its session right after the kernel's
      clear has removed the first one, between the cleanup's guard and its write. */
  lemma StaleClearInOtherOrder(ring: RoundRobin.Ring, p: Bytes, s: Session, r: Session) returns (tr: Trace)
    requires Weak(EmptyTable(ring)) && CallsOnOne(p, s, r)
    ensures Run(tr.gs, tr.acts) && EndsStale(tr.gs[|tr.acts|], s, r)
  {
    var g;
    tr, g := UpToGuard(ring, p, s, r, true);
    FirstTable(ring, s);
    RemoveLookups(g.t, s);
    RemoveKeepsWeak(g.t, s);
    tr, g := ClearRead(tr, g, ClearPacket(p), s, 2);
    tr, g := Guarded(tr, g, s);
    tr, g := HandedOver(tr, g, ClearPacket(p), s, 2);
    tr, g := Added(tr, g, p, 1, 1, r);
    tr := StaleWritten(tr, g, s, r);
    RunsIsRun(tr);
  }

  // The table's two indexes have come apart: s is registered, but its LCI leads to r.
  ghost predicate EndsClashed(g: Gw, s: Session, r: Session) {
    !Exact(g.t) && Registered(g.t, s) && GetA(g.t, s.lciA) == Some(r) && r != s
  }

  /** From the start: the kernel calls twice on one LCI, both calls are dialed, and the second
      addition overwrites the first session, which stays registered but is no longer found. */
  lemma ClashHappens(ring: RoundRobin.Ring, p: Bytes, s: Session, r: Session) returns (tr: Trace)
    requires Weak(EmptyTable(ring)) && CallsOnOne(p, s, r)
    ensures Run(tr.gs, tr.acts) && EndsClashed(tr.gs[|tr.acts|], s, r)
    ensures |tr.acts| > 0 && Clashes(tr.gs[|tr.acts| - 1], tr.acts[|tr.acts| - 1])
  {
    var g;
    tr, g := UpToGuard(ring, p, s, r, true);
    FirstTable(ring, s);
    var g' := Overwritten(g, p, s, r);
    tr := Then(tr, g, DialGo(1, None, r), g');
    RunsIsRun(tr);
  }

  lemma Overwritten(g: Gw, p: Bytes, s: Session, r: Session) returns (g': Gw)
    requires Exact(g.t) && Registered(g.t, s) && GetA(g.t, 1) == Some(s)
    requires 1 in g.dials && g.dials[1] == DAdd(p, 1) && DialedWith(g, 1, r) && AddCheck(r).None?
    requires r.lciA == s.lciA == 1 && r.connB != s.connB
    ensures Next(g, DialGo(1, None, r), g') && Clashes(g, DialGo(1, None, r)) && EndsClashed(g', s, r)
  {
    g' := Apply(g, Do(OpAdd(r))).(dials := g.dials[1 := DSpawn(p, 1)]);
    PutExactIff(g.t, r);
    PutLookups(g.t, r);
  }
}

/** tun-gateway as a transition system. One goroutine reads the TUN device, one reads each
    connection and cleans up after it, short-lived ones dial the gateway socket, and a
    signal handler shuts down. A step is one critical section of the session manager, one
    load or store of shared state, one TUN write or one connection send; steps of
    different goroutines interleave freely. */
module TunGateway {
  import opened Wire
  import opened RoundRobin
  import opened SessionTable
  import opened SessionManager
  import CallRequest

  type Bytes = seq<byte>

  /** What leaves the process, with the session on whose behalf a CLEAR is sent. */
  datatype Output =
    | Control(hdr: byte)
    | ToKernel(data: Bytes)
    | ToPeer(conn: Conn, data: Bytes)
    | RestartConfirm(data: Bytes)
    | ReaderClear(s: Session, data: Bytes)
    | SweepClear(s: Session, data: Bytes)
      // since: length of the output log when the cleanup took its snapshot
    | CleanupClear(s: Session, data: Bytes, since: nat)

  // ---- program points ----

  datatype ReaderNext = ToIdle | ToConfirm(p: Bytes)

  datatype ReaderPc =
    | RIdle
    | RDone
    | RConnect
    | RConnectCas
    | RDown
    | RSweep(next: ReaderNext)
    | RSweepSend(rest: seq<Session>, next: ReaderNext)
    | RRestart(p: Bytes)
    | RRestartSeen(p: Bytes, operational: bool)
    | RRestartConfirm(p: Bytes, operational: bool)
    | RRestartLink
    | RCall(hdr: byte, p: Bytes)
    | RCallRemove(hdr: byte, p: Bytes, s: Session)
    | RRoute(hdr: byte, p: Bytes)
    | RLookup(hdr: byte, p: Bytes)
    | RHave(hdr: byte, p: Bytes, s: Session)
    | RClearConfirm(p: Bytes, s: Session)
    | RRemove(p: Bytes, s: Session)
    | RClearSend(p: Bytes, s: Session)
    | RForward(hdr: byte, p: Bytes, s: Session)
    | RNoSession(hdr: byte, p: Bytes)
    | RTail(hdr: byte)

  datatype Kind = Server | Gateway

  datatype ConnPc =
    | CDialed
    | CIdle(kind: Kind)
    | CFrame(kind: Kind, d: Bytes)
    | CForce(d: Bytes)
    | CLookup(kind: Kind, d: Bytes)
    | CHave(kind: Kind, d: Bytes, s: Session)
    | CWriteClear(kind: Kind, d: Bytes, s: Session)
    | CMark(s: Session)
    | CRemove(kind: Kind, s: Session)
    | CLink(d: Bytes)
    | CShut(d: Bytes)
    | CAllocate(d: Bytes)
    | CFetch(d: Bytes, lci: LciField)
    | CWrite(kind: Kind, d: Bytes, lci: LciField)
    | CRefuse(d: Bytes)
    | CCleanup
    | CClean(rest: seq<Session>, since: nat)
    | CCleanGuard(rest: seq<Session>, since: nat)
    | CCleanWrite(rest: seq<Session>, since: nat)
    | CCleanRemove(rest: seq<Session>, since: nat)
    | CClosed

  datatype DialPc =
    | DStart(p: Bytes)
    | DDial(p: Bytes)
    | DAdd(p: Bytes, conn: Conn)
    | DSpawn(p: Bytes, conn: Conn)
    | DSend(p: Bytes, conn: Conn)
    | DDone

  datatype SignalPc = SIdle | SFlag | SSweep | SSweepSend(rest: seq<Session>) | SDisconnect | SDone

  datatype Gw = Gw(
    t: Table,
    phase: map<Session, Phase>,
    link: Link,
    shuttingDown: bool,
    reader: ReaderPc,
    conns: map<Conn, ConnPc>,
    dials: map<nat, DialPc>,
    signal: SignalPc,
    log: seq<Output>,
    born: set<Session>,   // every session ever created
    swept: set<Session>)  // every session ever taken out by a sweep

  function PhaseOf(g: Gw, s: Session): Phase {
    if s in g.phase then g.phase[s] else P1
  }

  function Rewrite(d: Bytes, lci: LciField): Bytes {
    if |d| < 2 then d else Relabel(d, lci)
  }

  // ---- one atomic step: a new program point and at most one effect on what is shared ----

  datatype Effect =
    | Quiet
    | Do(op: Op)
    | Emit(o: Output)
    | Mark(s: Session, phase: Phase)
    | SetLink(link: Link)
    | ShutDown
    | SpawnDial(id: nat, p: Bytes)
    | SetConn(conn: Conn, pc: ConnPc)

  // A session is created in the state its creator gives it: P1 by an allocation, P2 by a dialer.
  function Apply(g: Gw, e: Effect): Gw {
    match e
    case Quiet => g
    case Do(op) =>
      g.(t := Perform(g.t, op),
         born := g.born + Creates(g.t, op),
         phase := if Created(g.t, op) then g.phase[op.s := if op.OpAdd? then P2 else P1] else g.phase,
         swept := if op.OpRemoveAll? then g.swept + g.t.sessions.Values else g.swept)
    case Emit(o) => g.(log := g.log + [o])
    case Mark(s, phase) => g.(phase := g.phase[s := phase])
    case SetLink(link) => g.(link := link)
    case ShutDown => g.(shuttingDown := true)
    case SpawnDial(id, p) => g.(dials := g.dials[id := DStart(p)])
    case SetConn(c, pc) => g.(conns := g.conns[c := pc])
  }

  // One CLEAR_REQUEST of a sweep, on the session's own connection and LCI.
  function SweepOne(s: Session): Effect {
    if s.connB.None? then Quiet
    else Emit(SweepClear(s, ClearRequest(s.gfi, s.lciB, CAUSE_NETWORK_CONGESTION, 0)))
  }

  function Refusal(d: Bytes): Bytes {
    ClearRequest(GetGFI(d), GetLCI(d), CAUSE_NETWORK_CONGESTION, 0)
  }

  // ---- the TUN reader ----

  function AfterReadTun(hdr: byte, p: Bytes): ReaderPc {
    if p == [] then
      if hdr == HEADER_CONNECT then RConnect else if hdr == HEADER_DISCONNECT then RDown else RIdle
    else if GetType(p) == RESTART_REQUEST then RRestart(p)
    else if GetType(p) == CALL_REQUEST then RCall(hdr, p)
    else RLookup(hdr, p)
  }

  function ReaderStep(g: Gw, intercept: bool, order: seq<Session>, dial: nat): (ReaderPc, Effect) {
    match g.reader
    case RIdle => (RIdle, Quiet)
    case RDone => (RDone, Quiet)
    case RConnect =>
      if g.link != Operational then (RConnectCas, Emit(Control(HEADER_CONNECT))) else (RIdle, Quiet)
    case RConnectCas => (RIdle, if g.link == Down then SetLink(Connecting) else Quiet)
    case RDown => (RSweep(ToIdle), SetLink(Down))
    case RSweep(next) => (RSweepSend(order, next), Do(OpRemoveAll))
    case RSweepSend(rest, next) =>
      if rest != [] then (RSweepSend(rest[1..], next), SweepOne(rest[0]))
      else (if next.ToIdle? then RIdle else RRestartConfirm(next.p, true), Quiet)
    case RRestart(p) => (RRestartSeen(p, g.link == Operational), Quiet)
    case RRestartSeen(p, operational) =>
      (if !operational then RRestartConfirm(p, false)
       else if g.t.sessions != map[] then RSweep(ToConfirm(p))
       else RIdle, Quiet)
    case RRestartConfirm(p, operational) =>
      var gfi: byte := if p == [] then 0 else p[0] / 16 * 16;
      (RRestartLink, Emit(RestartConfirm([gfi, 0, RESTART_CONFIRM])))
    case RRestartLink => (RIdle, SetLink(Operational))
    case RCall(hdr, p) =>
      (match GetA(g.t, GetLCI(p))
       case Some(s) => RCallRemove(hdr, p, s)
       case None => RRoute(hdr, p), Quiet)
    case RCallRemove(hdr, p, s) => (RRoute(hdr, p), Do(OpRemove(s)))
    case RRoute(hdr, p) => if intercept then (RIdle, SpawnDial(dial, p)) else (RLookup(hdr, p), Quiet)
    case RLookup(hdr, p) =>
      (match GetA(g.t, GetLCI(p))
       case Some(s) => RHave(hdr, p, s)
       case None => RNoSession(hdr, p), Quiet)
    case RHave(hdr, p, s) =>
      var ptype := GetType(p);
      if ptype == CALL_CONNECTED then (RForward(hdr, p, s), Mark(s, P4))
      else if ptype == CLEAR_REQUEST then (RClearConfirm(p, s), Mark(s, P5))
      else (if ptype == CLEAR_CONFIRM then RRemove(p, s) else RForward(hdr, p, s), Quiet)
    case RClearConfirm(p, s) =>
      (RRemove(p, s), Emit(ToKernel(if |p| < 2 then [] else [p[0], p[1], CLEAR_CONFIRM])))
    case RRemove(p, s) => (RClearSend(p, s), Do(OpRemove(s)))
    case RClearSend(p, s) => (RIdle, Emit(ReaderClear(s, Rewrite(p, s.lciB))))
    case RForward(hdr, p, s) =>
      (RTail(hdr), if s.connB.None? then Quiet else Emit(ToPeer(s.connB.value, Rewrite(p, s.lciB))))
    case RNoSession(hdr, p) =>
      (RTail(hdr), if !IsClear(GetType(p)) && GetLCI(p) != 0 then Emit(ToKernel(Refusal(p))) else Quiet)
    case RTail(hdr) => (if hdr == HEADER_DISCONNECT then RDown else RIdle, Quiet)
  }

  // ---- a connection's reader and its deferred cleanup ----

  function ConnStep(g: Gw, c: Conn, s': Session, order: seq<Session>): (ConnPc, Effect)
    requires c in g.conns
  {
    var pc := g.conns[c];
    match pc
    case CDialed => (pc, Quiet)
    case CIdle(_) => (pc, Quiet)
    case CClosed => (pc, Quiet)
    case CFrame(kind, d) =>
      (if kind == Gateway then CLookup(Gateway, d)
       else if GetType(d) == CALL_REQUEST && GetB(g.t, c, GetLCI(d)).Some? then CForce(d)
       else if IsClear(GetType(d)) then CLookup(Server, d)
       else CLink(d), Quiet)
    case CForce(d) => (CLink(d), Do(OpRemoveByB(c, GetLCI(d))))
    case CLookup(kind, d) =>
      (match GetB(g.t, c, GetLCI(d))
       case Some(s) => CHave(kind, d, s)
       case None => CIdle(kind), Quiet)
    case CHave(kind, d, s) =>
      if kind == Server then (CWriteClear(kind, d, s), Mark(s, P5))
      else if GetType(d) == CALL_CONNECTED then (CWrite(kind, d, s.lciA), Mark(s, P4))
      else (if IsClear(GetType(d)) then CWriteClear(kind, d, s) else CWrite(kind, d, s.lciA), Quiet)
    case CWriteClear(kind, d, s) =>
      (if GetType(d) == CLEAR_CONFIRM then CRemove(kind, s)
       else if kind == Gateway then CMark(s) else CIdle(kind), Emit(ToKernel(Rewrite(d, s.lciA))))
    case CMark(s) => (CIdle(Gateway), Mark(s, P5))
    case CRemove(kind, s) => (if kind == Server then CIdle(kind) else CCleanup, Do(OpRemove(s)))
    case CLink(d) => (if g.link != Operational then CRefuse(d) else CShut(d), Quiet)
    case CShut(d) => (if g.shuttingDown then CCleanup else CAllocate(d), Quiet)
    case CAllocate(d) =>
      var op := OpAllocate(c, GetGFI(d), GetLCI(d), s');
      (match GetB(g.t, c, GetLCI(d))
       case Some(s) => CFetch(d, s.lciA)
       case None => if Created(g.t, op) then CFetch(d, s'.lciA) else CRefuse(d), Do(op))
    case CFetch(d, lci) => (if GetA(g.t, lci).None? then CCleanup else CWrite(Server, d, lci), Quiet)
    case CWrite(kind, d, lci) => (CIdle(kind), Emit(ToKernel(Rewrite(d, lci))))
    case CRefuse(d) => (CCleanup, Emit(ToPeer(c, Refusal(d))))
    case CCleanup => (CClean(order, |g.log|), Quiet)
    case CClean(rest, since) =>
      (if rest == [] then CClosed
       else if PhaseOf(g, rest[0]) == P1 then CCleanRemove(rest, since)
       else CCleanGuard(rest, since), Quiet)
    case CCleanGuard(rest, since) =>
      (if rest != [] && GetA(g.t, rest[0].lciA) == Some(rest[0]) then CCleanWrite(rest, since)
       else CCleanRemove(rest, since), Quiet)
    case CCleanWrite(rest, since) =>
      (CCleanRemove(rest, since),
       if rest == [] then Quiet
       else Emit(CleanupClear(rest[0], ClearRequest(rest[0].gfi, rest[0].lciA, CAUSE_OUT_OF_ORDER, 0), since)))
    case CCleanRemove(rest, since) =>
      if rest == [] then (CClosed, Quiet) else (CClean(rest[1..], since), Do(OpRemove(rest[0])))
  }

  // ---- the dialing goroutines and the signal handler ----

  function DialStep(g: Gw, id: nat, dialed: Option<Conn>, s: Session): (DialPc, Effect)
    requires id in g.dials
  {
    match g.dials[id]
    case DDone => (DDone, Quiet)
    case DStart(p) => (if g.shuttingDown then DDone else DDial(p), Quiet)
    case DDial(p) =>
      (match dialed
       case None => (DDone, Emit(ToKernel(Refusal(p))))
       case Some(c) => (DAdd(p, c), SetConn(c, CDialed)))
    case DAdd(p, c) => (DSpawn(p, c), Do(OpAdd(s)))
    case DSpawn(p, c) => (DSend(p, c), SetConn(c, CIdle(Gateway)))
    case DSend(p, c) => (DDone, Emit(ToPeer(c, p)))
  }

  function SignalStep(g: Gw, order: seq<Session>): (SignalPc, Effect) {
    match g.signal
    case SIdle => (SIdle, Quiet)
    case SDone => (SDone, Quiet)
    case SFlag => (SSweep, ShutDown)
    case SSweep => (SSweepSend(order), Do(OpRemoveAll))
    case SSweepSend(rest) =>
      if rest == [] then (SDisconnect, Quiet) else (SSweepSend(rest[1..]), SweepOne(rest[0]))
    case SDisconnect => (SDone, Emit(Control(HEADER_DISCONNECT)))
  }

  // ---- the transition relation ----

  datatype Action =
    | ReadTun(hdr: byte, p: Bytes)
    | TunClosed
    | ReaderGo(intercept: bool, order: seq<Session>, dial: nat)
    | Accept(conn: Conn)
    | ReadConn(conn: Conn, d: Bytes)
    | ConnFails(conn: Conn, reply: Option<Bytes>)
    | ConnGo(conn: Conn, s: Session, order: seq<Session>)
    | DialGo(id: nat, dialed: Option<Conn>, s: Session)
    | Signal
    | SignalGo(order: seq<Session>)

  // order lists the set once each: the sessions as a Go map iteration may deliver them.
  ghost predicate Lists(order: seq<Session>, sessions: set<Session>) {
    NoDuplicates(order) && Elems(order) == sessions
  }

  function Elems(order: seq<Session>): set<Session> {
    set s | s in order
  }

  // The router is asked about a call, and a dialer spawned, only if its packet parses.
  predicate Interceptable(p: Bytes) {
    match ParseX25(p)
    case None => false
    case Some(pkt) => CallRequest.ParseCall(pkt, CALL_REQUEST).Ok?
  }

  // A created session is a new object with the fields its creator gives it; an allocation
  // that creates none found one or found the range exhausted.
  ghost predicate FreshAt(g: Gw, c: Conn, s: Session)
    requires c in g.conns
  {
    var pc := g.conns[c];
    pc.CAllocate? && GetB(g.t, c, GetLCI(pc.d)).None? && g.t.ring.Valid() && Pick(g.t.ring, g.t.byALCI.Keys).Some? ==>
      s !in g.born && Created(g.t, OpAllocate(c, GetGFI(pc.d), GetLCI(pc.d), s))
  }

  ghost predicate DialedWith(g: Gw, id: nat, s: Session)
    requires id in g.dials
  {
    var pc := g.dials[id];
    pc.DAdd? ==>
      s !in g.born && s.gfi == GetGFI(pc.p) && s.lciA == s.lciB == GetLCI(pc.p) && s.connB == Some(pc.conn)
  }

  ghost predicate Next(g: Gw, a: Action, g': Gw) {
    match a
    case ReadTun(hdr, p) => g.reader.RIdle? && g' == g.(reader := AfterReadTun(hdr, p))
    case TunClosed => g.reader.RIdle? && g' == g.(reader := RDone)
    case ReaderGo(intercept, order, dial) =>
      && dial !in g.dials && (g.reader.RRoute? && intercept ==> Interceptable(g.reader.p))
      && (g.reader.RSweep? ==> Lists(order, g.t.sessions.Values))
      && var (pc, e) := ReaderStep(g, intercept, order, dial);
         g' == Apply(g, e).(reader := pc)
    case Accept(c) => c !in g.conns && g' == g.(conns := g.conns[c := CIdle(Server)])
    case ReadConn(c, d) =>
      // frames shorter than an LCI are outside the model
      && c in g.conns && g.conns[c].CIdle? && |d| >= 2
      && g' == g.(conns := g.conns[c := CFrame(g.conns[c].kind, d)])
    case ConnFails(c, reply) =>
      && c in g.conns && g.conns[c].CIdle?
      && g' == Apply(g, if reply.None? then Quiet else Emit(ToPeer(c, reply.value))).(conns := g.conns[c := CCleanup])
    case ConnGo(c, s, order) =>
      && c in g.conns && FreshAt(g, c, s)
      && (g.conns[c].CCleanup? ==> Lists(order, ForConn(g.t, c)))
      && var (pc, e) := ConnStep(g, c, s, order);
         g' == Apply(g, e).(conns := g.conns[c := pc])
    case DialGo(id, dialed, s) =>
      && id in g.dials && DialedWith(g, id, s)
      && (dialed.Some? ==> dialed.value !in g.conns)
      && var (pc, e) := DialStep(g, id, dialed, s);
         g' == Apply(g, e).(dials := g.dials[id := pc])
    case Signal => g.signal.SIdle? && g' == g.(signal := SFlag)
    case SignalGo(order) =>
      && (g.signal.SSweep? ==> Lists(order, g.t.sessions.Values))
      && var (pc, e) := SignalStep(g, order);
         g' == Apply(g, e).(signal := pc)
  }

  ghost predicate Init(g: Gw) {
    && Weak(g.t) && g.t == EmptyTable(g.t.ring)
    && g.link == Connecting && !g.shuttingDown
    && g.reader == RIdle && g.conns == map[] && g.dials == map[] && g.signal == SIdle
    && g.phase == map[] && g.log == [] && g.born == {} && g.swept == {}
  }

  ghost predicate Run(gs: seq<Gw>, acts: seq<Action>) {
    && |gs| == |acts| + 1 && Init(gs[0])
    && forall i :: 0 <= i < |acts| ==> Next(gs[i], acts[i], gs[i + 1])
  }
}

/** The bidirectional relay of one call: two direction loops, a waiter for both, an INTERRUPT
    keepalive and the goroutine that tears everything down, over every interleaving. It is
    the relay of xot-gateway; without the keepalive it is that of xot-server. */
module CallRelay {
  import opened Wire

  type Bytes = seq<byte>

  // ---- what one direction hands on ----

  // A packet as a direction processed it: the in-flight flag it met (down from local, where
  // none is looked at) and whether it went no further.
  datatype In = In(d: Bytes, flag: bool, swallowed: bool)

  /** The packets on the call's LCI, in order, except swallowed ones, up to and including the
      first CLEAR_REQUEST or CLEAR_CONFIRM. */
  function Relayed(lci: Lci, ins: seq<In>): seq<Bytes> {
    if ins == [] then []
    else if GetLCI(ins[0].d) != lci || ins[0].swallowed then Relayed(lci, ins[1..])
    else if IsClear(GetType(ins[0].d)) then [ins[0].d]
    else [ins[0].d] + Relayed(lci, ins[1..])
  }

  predicate HasClear(lci: Lci, ins: seq<In>) {
    exists x :: x in ins && GetLCI(x.d) == lci && !x.swallowed && IsClear(GetType(x.d))
  }

  lemma {:induction false} RelayedNext(lci: Lci, ins: seq<In>, x: In)
    requires !HasClear(lci, ins)
    ensures Relayed(lci, ins + [x]) ==
            Relayed(lci, ins) + if GetLCI(x.d) == lci && !x.swallowed then [x.d] else []
  {
    if ins == [] {
      assert Relayed(lci, [x][1..]) == [];
    } else {
      assert (ins + [x])[1..] == ins[1..] + [x];
      assert forall y :: y in ins[1..] ==> y in ins;
      RelayedNext(lci, ins[1..], x);
    }
  }

  // ---- the machine ----

  // The connection a direction reads from; it hands on to the other one.
  datatype Side = Remote | Local

  datatype DirPc =
    | DRead
    | DGot(d: Bytes)
    | DTooLong(d: Bytes)
    | DSend(d: Bytes)
    | DSendClear(d: Bytes)
    | DClose
    | DDone

  datatype WaitPc = WWait | WClose | WDone
  datatype KeepPc = KOff | KWait | KTick | KCheck | KStore | KSend | KClose | KDone
  datatype MainPc = MSelect | MClear | MCloseRemote | MCloseLocal | MWait | MDone

  // What each direction processed and what it handed on.
  datatype Flow = Flow(ins: seq<In>, outs: seq<Bytes>)

  // The once-closed quit channel, the shutdown channel and the two connections.
  datatype Latch = Latch(quit: bool, closes: nat, stop: bool, remoteClosed: bool, localClosed: bool)

  // The in-flight flag and the call-established channel, with the accounting of probes.
  datatype Probe = Probe(flag: bool, established: bool, sets: nat, swallows: nat, sent: seq<Bytes>)

  datatype Pcs = Pcs(r: DirPc, l: DirPc, w: WaitPc, k: KeepPc, m: MainPc)

  datatype Relay = Relay(gfi: byte, lci: Lci, latch: Latch, probe: Probe,
                         fromRemote: Flow, fromLocal: Flow, generated: seq<Bytes>, pcs: Pcs)

  datatype Action =
    | Read(side: Side, d: Bytes)
    | Fails(side: Side, tooLong: Option<Bytes>)
    | Tick(due: bool)
    | Stop
    | ShutdownCloses
      // steps of the relay's own goroutines
    | Go(side: Side)
    | WGo
    | KGo(leave: bool)
    | MGo(stopped: bool)

  predicate Internal(a: Action) {
    a.Go? || a.WGo? || a.KGo? || a.MGo?
  }

  function Init(gfi: byte, lci: Lci, keepalive: bool): Relay {
    Relay(gfi, lci, Latch(false, 0, false, false, false), Probe(false, false, 0, 0, []),
          Flow([], []), Flow([], []), [],
          Pcs(DRead, DRead, WWait, if keepalive then KWait else KOff, MSelect))
  }

  function PcOf(g: Relay, side: Side): DirPc {
    if side == Remote then g.pcs.r else g.pcs.l
  }

  function FlowOf(g: Relay, side: Side): Flow {
    if side == Remote then g.fromRemote else g.fromLocal
  }

  predicate Closed(c: Latch, side: Side) {
    if side == Remote then c.remoteClosed else c.localClosed
  }

  // ---- one atomic step: a new program point and one effect on what is shared ----

  datatype Effect =
    | Quiet
    | CloseQuit
    | RequestStop
    | CloseConn(conn: Side)
    | Take(side: Side, d: Bytes, flag: bool, swallow: bool)
    | Hand(side: Side, d: Bytes)
    | Generate(d: Bytes)
    | RaiseProbe
    | SendProbe

  // The latch closes only once.
  function OnLatch(c: Latch, e: Effect): Latch {
    match e
    case CloseQuit => if c.quit then c else c.(quit := true, closes := c.closes + 1)
    case RequestStop => c.(stop := true)
    case CloseConn(side) => if side == Remote then c.(remoteClosed := true) else c.(localClosed := true)
    case _ => c
  }

  // A swallowed confirm lowers the flag; a CALL_CONNECTED from the remote starts the keepalive.
  function OnProbe(p: Probe, gfi: byte, lci: Lci, e: Effect): Probe {
    match e
    case Take(side, d, _, swallow) =>
      if side == Local then p
      else p.(flag := p.flag && !swallow, swallows := p.swallows + if swallow then 1 else 0,
              established := p.established || Connects(lci, d))
    case RaiseProbe => p.(flag := true, sets := p.sets + 1)
    case SendProbe => p.(sent := p.sent + [Serialize(Packet(gfi, lci, INTERRUPT, [1]))])
    case _ => p
  }

  function OnFlow(f: Flow, side: Side, e: Effect): Flow {
    match e
    case Take(s, d, flag, swallow) => if s == side then f.(ins := f.ins + [In(d, flag, swallow)]) else f
    case Hand(s, d) => if s == side then f.(outs := f.outs + [d]) else f
    case _ => f
  }

  function OnGenerated(generated: seq<Bytes>, e: Effect): seq<Bytes> {
    if e.Generate? then generated + [e.d] else generated
  }

  predicate Connects(lci: Lci, d: Bytes) {
    GetLCI(d) == lci && GetType(d) == CALL_CONNECTED
  }

  // A confirm from the remote that arrives while a probe is out is the keepalive's.
  predicate Swallows(lci: Lci, flag: bool, d: Bytes) {
    GetLCI(d) == lci && GetType(d) == INTERRUPT_CONFIRM && flag
  }

  function Onward(lci: Lci, d: Bytes, swallow: bool): DirPc {
    if GetLCI(d) != lci || swallow then DRead else if IsClear(GetType(d)) then DSendClear(d) else DSend(d)
  }

  // A confirm ends the call for both directions, a request only for this one.
  function AfterClear(d: Bytes): DirPc {
    if GetType(d) == CLEAR_CONFIRM then DClose else DDone
  }

  function DirStep(g: Relay, side: Side): (DirPc, Effect) {
    match PcOf(g, side)
    case DRead => (DClose, Quiet)
    case DGot(d) =>
      var flag := side == Remote && g.probe.flag;
      var swallow := Swallows(g.lci, flag, d);
      (Onward(g.lci, d, swallow), Take(side, d, flag, swallow))
    case DTooLong(d) =>
      (DClose, Generate(ClearRequest(GetGFI(d), GetLCI(d), CAUSE_LOCAL_PROCEDURE_ERROR, DIAG_PACKET_TOO_LONG)))
    case DSend(d) => (DRead, Hand(side, d))
    case DSendClear(d) => (AfterClear(d), Hand(side, d))
    case DClose => (DDone, CloseQuit)
    case DDone => (DDone, Quiet)
  }

  function WaitStep(w: WaitPc): (WaitPc, Effect) {
    match w
    case WWait => (WClose, Quiet)
    case WClose => (WDone, CloseQuit)
    case WDone => (WDone, Quiet)
  }

  function KeepStep(k: KeepPc, flag: bool, leave: bool): (KeepPc, Effect) {
    match k
    case KWait => (if leave then KDone else KTick, Quiet)
    case KTick => (KDone, Quiet)
    case KCheck => (if flag then KClose else KStore, Quiet)
    case KStore => (KSend, RaiseProbe)
    case KSend => (KTick, SendProbe)
    case KClose => (KDone, CloseQuit)
    case KOff => (KOff, Quiet)
    case KDone => (KDone, Quiet)
  }

  function MainStep(g: Relay, stopped: bool): (MainPc, Effect) {
    match g.pcs.m
    case MSelect => (if stopped then MClear else MCloseRemote, Quiet)
    case MClear => (MCloseRemote, Generate(ClearRequest(g.gfi, g.lci, CAUSE_OUT_OF_ORDER, 0)))
    case MCloseRemote => (MCloseLocal, CloseConn(Remote))
    case MCloseLocal => (MWait, CloseConn(Local))
    case MWait => (MDone, Quiet)
    case MDone => (MDone, Quiet)
  }

  predicate DirsDone(p: Pcs) {
    p.r == DDone && p.l == DDone
  }

  predicate KeepExited(p: Pcs) {
    p.k == KOff || p.k == KDone
  }

  // When a goroutine can take its next step.
  predicate Enabled(g: Relay, a: Action) {
    match a
    case Read(side, _) => PcOf(g, side) == DRead && !Closed(g.latch, side)
    case Fails(side, _) => PcOf(g, side) == DRead && !Closed(g.latch, side)
    case Tick(_) => g.pcs.k == KTick
    case Stop => !g.latch.stop
    case ShutdownCloses => g.latch.stop && !g.latch.localClosed
    case Go(side) => if PcOf(g, side) == DRead then Closed(g.latch, side) else PcOf(g, side) != DDone
    case WGo => if g.pcs.w == WWait then DirsDone(g.pcs) else g.pcs.w != WDone
    case KGo(leave) => KeepEnabled(g, leave)
    case MGo(stopped) => MainEnabled(g, stopped)
  }

  predicate KeepEnabled(g: Relay, leave: bool) {
    match g.pcs.k
    case KWait => if leave then g.latch.quit || g.latch.stop else g.probe.established
    case KTick => g.latch.quit || g.latch.stop
    case KOff => false
    case KDone => false
    case _ => true
  }

  predicate MainEnabled(g: Relay, stopped: bool) {
    match g.pcs.m
    case MSelect => if stopped then g.latch.stop else g.latch.quit
    case MWait => DirsDone(g.pcs) && KeepExited(g.pcs)
    case MDone => false
    case _ => true
  }

  function EffectOf(g: Relay, a: Action): Effect {
    match a
    case Stop => RequestStop
    case ShutdownCloses => CloseConn(Local)
    case Go(side) => DirStep(g, side).1
    case WGo => WaitStep(g.pcs.w).1
    case KGo(leave) => KeepStep(g.pcs.k, g.probe.flag, leave).1
    case MGo(stopped) => MainStep(g, stopped).1
    case _ => Quiet
  }

  function NextDir(g: Relay, a: Action, side: Side): DirPc {
    match a
    case Read(s, d) => if s == side then DGot(d) else PcOf(g, side)
    case Fails(s, tooLong) =>
      if s != side then PcOf(g, side) else if tooLong.Some? then DTooLong(tooLong.value) else DClose
    case Go(s) => if s == side then DirStep(g, side).0 else PcOf(g, side)
    case _ => PcOf(g, side)
  }

  function NextKeep(g: Relay, a: Action): KeepPc {
    match a
    case Tick(due) => if due then KCheck else KTick
    case KGo(leave) => KeepStep(g.pcs.k, g.probe.flag, leave).0
    case _ => g.pcs.k
  }

  function NextPcs(g: Relay, a: Action): Pcs {
    Pcs(NextDir(g, a, Remote), NextDir(g, a, Local),
        if a.WGo? then WaitStep(g.pcs.w).0 else g.pcs.w,
        NextKeep(g, a),
        if a.MGo? then MainStep(g, a.stopped).0 else g.pcs.m)
  }

  function Step(g: Relay, a: Action): Relay {
    var e := EffectOf(g, a);
    Relay(g.gfi, g.lci, OnLatch(g.latch, e), OnProbe(g.probe, g.gfi, g.lci, e),
          OnFlow(g.fromRemote, Remote, e), OnFlow(g.fromLocal, Local, e),
          OnGenerated(g.generated, e), NextPcs(g, a))
  }

  ghost predicate Run(gs: seq<Relay>, acts: seq<Action>, keepalive: bool) {
    && |gs| == |acts| + 1 && gs[0] == Init(gs[0].gfi, gs[0].lci, keepalive)
    && forall i :: 0 <= i < |acts| ==> Enabled(gs[i], acts[i]) && gs[i + 1] == Step(gs[i], acts[i])
  }

  // ---- what each direction keeps ----

  function Pending(pc: DirPc): seq<Bytes> {
    if pc.DSend? || pc.DSendClear? then [pc.d] else []
  }

  /** What is swallowed, packet by packet: the INTERRUPT_CONFIRMs on the call's LCI that met
      the flag up, and nothing else. */
  ghost predicate OnlyConfirms(lci: Lci, ins: seq<In>) {
    forall x :: x in ins ==> (x.swallowed <==> GetLCI(x.d) == lci && GetType(x.d) == INTERRUPT_CONFIRM && x.flag)
  }

  /** What a direction has sent, plus what it is about to send, is what it should hand on of
      the packets it has processed; a CLEAR is the last packet it ever processes. */
  ghost predicate FlowOk(lci: Lci, f: Flow, pc: DirPc) {
    && f.outs + Pending(pc) == Relayed(lci, f.ins)
    && (HasClear(lci, f.ins) ==> pc.DSendClear? || pc.DClose? || pc.DDone?)
  }

  lemma FlowTakes(lci: Lci, f: Flow, d: Bytes, flag: bool, swallow: bool)
    requires FlowOk(lci, f, DGot(d)) && (swallow ==> !IsClear(GetType(d)))
    ensures FlowOk(lci, f.(ins := f.ins + [In(d, flag, swallow)]), Onward(lci, d, swallow))
  {
    RelayedNext(lci, f.ins, In(d, flag, swallow));
    assert f.outs + [] == f.outs;
    if HasClear(lci, f.ins + [In(d, flag, swallow)]) {
      var x :| x in f.ins + [In(d, flag, swallow)] && GetLCI(x.d) == lci && !x.swallowed && IsClear(GetType(x.d));
      assert x !in f.ins;
    }
  }

  lemma FlowHands(lci: Lci, f: Flow, pc: DirPc, pc': DirPc)
    requires FlowOk(lci, f, pc) && (pc.DSend? || pc.DSendClear?)
    requires if pc.DSend? then pc' == DRead else pc' == DClose || pc' == DDone
    ensures FlowOk(lci, f.(outs := f.outs + [pc.d]), pc')
  {
    assert f.outs + [pc.d] + [] == f.outs + [pc.d];
  }

  lemma OwnFlow(g: Relay, side: Side, f: Flow)
    requires FlowOk(g.lci, f, PcOf(g, side))
    ensures FlowOk(g.lci, OnFlow(f, side, DirStep(g, side).1), DirStep(g, side).0)
  {
    match PcOf(g, side) {
      case DGot(d) =>
        var flag := side == Remote && g.probe.flag;
        FlowTakes(g.lci, f, d, flag, Swallows(g.lci, flag, d));
      case DSend(d) => FlowHands(g.lci, f, DSend(d), DRead);
      case DSendClear(d) => FlowHands(g.lci, f, DSendClear(d), AfterClear(d));
      case _ =>
    }
  }

  lemma OthersFlow(g: Relay, a: Action, side: Side)
    requires a != Go(side)
    ensures var e := EffectOf(g, a); (e.Take? || e.Hand? ==> e.side != side)
  {
  }

  lemma NextFlow(g: Relay, a: Action, side: Side)
    requires FlowOk(g.lci, FlowOf(g, side), PcOf(g, side)) && Enabled(g, a)
    ensures FlowOk(g.lci, OnFlow(FlowOf(g, side), side, EffectOf(g, a)), NextDir(g, a, side))
  {
    if a == Go(side) {
      OwnFlow(g, side, FlowOf(g, side));
    } else {
      OthersFlow(g, a, side);
    }
  }

  function FlagCount(ins: seq<In>): nat {
    if ins == [] then 0 else FlagCount(ins[..|ins| - 1]) + if ins[|ins| - 1].swallowed then 1 else 0
  }

  lemma FlagCountNext(ins: seq<In>, x: In)
    ensures FlagCount(ins + [x]) == FlagCount(ins) + if x.swallowed then 1 else 0
  {
    assert (ins + [x])[..|ins|] == ins;
  }

  // ---- what the keepalive keeps ----

  ghost predicate HasConnected(lci: Lci, ins: seq<In>) {
    exists x :: x in ins && Connects(lci, x.d)
  }

  predicate Probing(k: KeepPc) {
    k == KTick || k == KCheck || k == KStore || k == KSend || k == KClose
  }

  // Sets of the probe flag minus swallowed confirms is 1 while the flag is up and 0 otherwise.
  ghost predicate Counts(p: Probe, ins: seq<In>) {
    p.sets == p.swallows + (if p.flag then 1 else 0) && p.swallows == FlagCount(ins)
  }

  // Every set is followed by one probe, and the flag is down before it.
  ghost predicate Paired(p: Probe, k: KeepPc) {
    && |p.sent| + (if k == KSend then 1 else 0) == p.sets
    && (k == KStore ==> !p.flag)
  }

  // No keepalive activity comes before a CALL_CONNECTED from the remote.
  ghost predicate Started(p: Probe, lci: Lci, ins: seq<In>, k: KeepPc) {
    && (p.established ==> HasConnected(lci, ins))
    && (Probing(k) || p.sets > 0 ==> p.established)
  }

  /** Keepalive credit. */
  ghost predicate Credit(p: Probe, lci: Lci, ins: seq<In>, k: KeepPc) {
    Counts(p, ins) && Paired(p, k) && Started(p, lci, ins, k)
  }

  // How an effect on the flag and a move of the keepalive belong together.
  predicate Moves(p: Probe, k: KeepPc, e: Effect, k': KeepPc) {
    && (e.Take? && e.side == Remote && e.swallow ==> p.flag)
    && (e.RaiseProbe? ==> k == KStore && k' == KSend)
    && (e.SendProbe? ==> k == KSend && k' == KTick)
    && (k' == KSend ==> e.RaiseProbe? || (k == KSend && !e.SendProbe?))
    && (k == KSend ==> k' == KSend || e.SendProbe?)
    && (k' == KStore ==> !e.RaiseProbe? && (k == KStore || !p.flag))
    && (Probing(k') ==> Probing(k) || p.established)
  }

  lemma KeepaliveMoves(g: Relay, a: Action)
    requires Enabled(g, a)
    ensures Moves(g.probe, g.pcs.k, EffectOf(g, a), NextKeep(g, a))
  {
  }

  lemma CountsFollow(p: Probe, gfi: byte, lci: Lci, f: Flow, k: KeepPc, e: Effect, k': KeepPc)
    requires Counts(p, f.ins) && Paired(p, k) && Moves(p, k, e, k')
    ensures Counts(OnProbe(p, gfi, lci, e), OnFlow(f, Remote, e).ins)
  {
    if e.Take? && e.side == Remote {
      FlagCountNext(f.ins, In(e.d, e.flag, e.swallow));
    }
  }

  lemma PairedFollows(p: Probe, gfi: byte, lci: Lci, k: KeepPc, e: Effect, k': KeepPc)
    requires Paired(p, k) && Moves(p, k, e, k')
    ensures Paired(OnProbe(p, gfi, lci, e), k')
  {
  }

  lemma StartedFollows(p: Probe, gfi: byte, lci: Lci, f: Flow, k: KeepPc, e: Effect, k': KeepPc)
    requires Started(p, lci, f.ins, k) && Moves(p, k, e, k')
    ensures Started(OnProbe(p, gfi, lci, e), lci, OnFlow(f, Remote, e).ins, k')
  {
    if e.Take? && e.side == Remote {
      var ins := OnFlow(f, Remote, e).ins;
      assert ins[|f.ins|] in ins;
      assert forall x :: x in f.ins ==> x in ins;
    }
  }

  lemma NextCredit(g: Relay, a: Action)
    requires Credit(g.probe, g.lci, g.fromRemote.ins, g.pcs.k) && Enabled(g, a)
    ensures var e := EffectOf(g, a);
            Credit(OnProbe(g.probe, g.gfi, g.lci, e), g.lci, OnFlow(g.fromRemote, Remote, e).ins, NextKeep(g, a))
  {
    KeepaliveMoves(g, a);
    CountsFollow(g.probe, g.gfi, g.lci, g.fromRemote, g.pcs.k, EffectOf(g, a), NextKeep(g, a));
    PairedFollows(g.probe, g.gfi, g.lci, g.pcs.k, EffectOf(g, a), NextKeep(g, a));
    StartedFollows(g.probe, g.gfi, g.lci, g.fromRemote, g.pcs.k, EffectOf(g, a), NextKeep(g, a));
  }

  // ---- what the latch and the program points keep ----

  ghost predicate ClosedOnce(c: Latch) {
    c.closes == if c.quit then 1 else 0
  }

  ghost predicate Follows(c: Latch, p: Pcs) {
    && (p.w == WDone ==> c.quit)
    && (p.w == WClose ==> DirsDone(p))
    && (p.m != MSelect ==> c.quit || c.stop)
    && (p.m == MCloseLocal || p.m == MWait || p.m == MDone ==> c.remoteClosed)
    && (p.m == MWait || p.m == MDone ==> c.localClosed)
    && (p.m == MDone ==> DirsDone(p) && KeepExited(p))
  }

  // Nothing that was closed reopens and no goroutine that has exited comes back.
  predicate Onwards(c: Latch, p: Pcs, c': Latch, p': Pcs) {
    && (c.quit ==> c'.quit) && (c.stop ==> c'.stop)
    && (c.remoteClosed ==> c'.remoteClosed) && (c.localClosed ==> c'.localClosed)
    && (DirsDone(p) ==> DirsDone(p')) && (KeepExited(p) ==> KeepExited(p'))
  }

  lemma LatchOnwards(c: Latch, e: Effect)
    ensures var c' := OnLatch(c, e);
            && (c.quit ==> c'.quit) && (c.stop ==> c'.stop)
            && (c.remoteClosed ==> c'.remoteClosed) && (c.localClosed ==> c'.localClosed)
            && (ClosedOnce(c) ==> ClosedOnce(c'))
  {
  }

  lemma DoneStays(g: Relay, a: Action)
    requires Enabled(g, a)
    ensures DirsDone(g.pcs) ==> DirsDone(NextPcs(g, a))
    ensures KeepExited(g.pcs) ==> KeepExited(NextPcs(g, a))
  {
  }

  lemma NextOnwards(g: Relay, a: Action)
    requires Enabled(g, a)
    ensures Onwards(g.latch, g.pcs, OnLatch(g.latch, EffectOf(g, a)), NextPcs(g, a))
  {
    LatchOnwards(g.latch, EffectOf(g, a));
    DoneStays(g, a);
  }

  // A step of the waiter or of the teardown goroutine, with what it needed and what it did.
  lemma WaitMoves(g: Relay, a: Action)
    requires Enabled(g, a)
    ensures var w, w' := g.pcs.w, NextPcs(g, a).w;
            w' == w || (w == WWait && w' == WClose && DirsDone(g.pcs))
            || (w == WClose && w' == WDone && EffectOf(g, a) == CloseQuit)
  {
  }

  lemma MainMoves(g: Relay, a: Action)
    requires Enabled(g, a)
    ensures var m, m', e := g.pcs.m, NextPcs(g, a).m, EffectOf(g, a);
            m' == m || (m == MSelect && (m' == MClear || m' == MCloseRemote) && (g.latch.quit || g.latch.stop))
            || (m == MClear && m' == MCloseRemote)
            || (m == MCloseRemote && m' == MCloseLocal && e == CloseConn(Remote))
            || (m == MCloseLocal && m' == MWait && e == CloseConn(Local))
            || (m == MWait && m' == MDone && DirsDone(g.pcs) && KeepExited(g.pcs))
  {
  }

  lemma NextFollows(g: Relay, a: Action)
    requires Follows(g.latch, g.pcs) && Enabled(g, a)
    ensures Follows(OnLatch(g.latch, EffectOf(g, a)), NextPcs(g, a))
  {
    NextOnwards(g, a);
    WaitMoves(g, a);
    MainMoves(g, a);
    MovesFollow(g.latch, g.pcs, EffectOf(g, a), NextPcs(g, a));
  }

  lemma MovesFollow(c: Latch, p: Pcs, e: Effect, p': Pcs)
    requires Follows(c, p) && Onwards(c, p, OnLatch(c, e), p')
    requires p'.w == p.w || (p.w == WWait && p'.w == WClose && DirsDone(p))
             || (p.w == WClose && p'.w == WDone && e == CloseQuit)
    requires p'.m == p.m || (p.m == MSelect && (p'.m == MClear || p'.m == MCloseRemote) && (c.quit || c.stop))
             || (p.m == MClear && p'.m == MCloseRemote)
             || (p.m == MCloseRemote && p'.m == MCloseLocal && e == CloseConn(Remote))
             || (p.m == MCloseLocal && p'.m == MWait && e == CloseConn(Local))
             || (p.m == MWait && p'.m == MDone && DirsDone(p) && KeepExited(p))
    ensures Follows(OnLatch(c, e), p')
  {
  }

  // ---- the invariant ----

  ghost predicate Inv(g: Relay) {
    && FlowOk(g.lci, g.fromRemote, g.pcs.r) && FlowOk(g.lci, g.fromLocal, g.pcs.l)
    && NoneSwallowed(g.fromLocal.ins) && OnlyConfirms(g.lci, g.fromRemote.ins)
    && Credit(g.probe, g.lci, g.fromRemote.ins, g.pcs.k)
    && ClosedOnce(g.latch) && Follows(g.latch, g.pcs)
  }

  ghost predicate NoneSwallowed(ins: seq<In>) {
    forall x :: x in ins ==> !x.flag && !x.swallowed
  }

  lemma NextSwallowed(g: Relay, a: Action)
    requires NoneSwallowed(g.fromLocal.ins) && OnlyConfirms(g.lci, g.fromRemote.ins)
    ensures NoneSwallowed(OnFlow(g.fromLocal, Local, EffectOf(g, a)).ins)
    ensures OnlyConfirms(g.lci, OnFlow(g.fromRemote, Remote, EffectOf(g, a)).ins)
  {
    if a != Go(Local) {
      OthersFlow(g, a, Local);
    }
    if a != Go(Remote) {
      OthersFlow(g, a, Remote);
    }
  }

  lemma NextInv(g: Relay, a: Action)
    requires Inv(g) && Enabled(g, a)
    ensures Inv(Step(g, a))
  {
    NextFlow(g, a, Remote);
    NextFlow(g, a, Local);
    NextSwallowed(g, a);
    NextCredit(g, a);
    LatchOnwards(g.latch, EffectOf(g, a));
    NextFollows(g, a);
  }

  lemma {:induction false} RunKeepsInv(gs: seq<Relay>, acts: seq<Action>, keepalive: bool, n: nat)
    requires Run(gs, acts, keepalive) && n < |gs|
    ensures Inv(gs[n]) && gs[n].lci == gs[0].lci
  {
    if n == 0 {
      assert Relayed(gs[0].lci, []) == [];
    } else {
      RunKeepsInv(gs, acts, keepalive, n - 1);
      assert Enabled(gs[n - 1], acts[n - 1]) && gs[n - 1 + 1] == Step(gs[n - 1], acts[n - 1]);
      NextInv(gs[n - 1], acts[n - 1]);
    }
  }

  // ---- theorems over runs ----

  /** In every interleaving each direction has handed on, whenever it is not about to send,
      exactly what it should of the packets it processed; local to remote swallows nothing,
      and remote to local swallows exactly the INTERRUPT_CONFIRMs of the call that met the
      flag up, as many as the keepalive has counted. */
  lemma EachDirectionHandsOnExactly(gs: seq<Relay>, acts: seq<Action>, keepalive: bool, n: nat)
    requires Run(gs, acts, keepalive) && n < |gs|
    ensures forall side :: Pending(PcOf(gs[n], side)) == [] ==>
                             FlowOf(gs[n], side).outs == Relayed(gs[n].lci, FlowOf(gs[n], side).ins)
    ensures NoneSwallowed(gs[n].fromLocal.ins) && OnlyConfirms(gs[n].lci, gs[n].fromRemote.ins)
    ensures FlagCount(gs[n].fromRemote.ins) == gs[n].probe.swallows
    ensures gs[n].lci == gs[0].lci
  {
    RunKeepsInv(gs, acts, keepalive, n);
  }

  lemma KeepaliveCredit(gs: seq<Relay>, acts: seq<Action>, keepalive: bool, n: nat)
    requires Run(gs, acts, keepalive) && n < |gs|
    ensures gs[n].probe.sets - gs[n].probe.swallows == if gs[n].probe.flag then 1 else 0
    ensures gs[n].probe.swallows == FlagCount(gs[n].fromRemote.ins) && OnlyConfirms(gs[n].lci, gs[n].fromRemote.ins)
    ensures |gs[n].probe.sent| <= gs[n].probe.sets <= |gs[n].probe.sent| + 1
    ensures gs[n].probe.sent != [] ==> HasConnected(gs[n].lci, gs[n].fromRemote.ins)
  {
    RunKeepsInv(gs, acts, keepalive, n);
  }

  // Step i took the k-th packet that the remote direction processed.
  ghost predicate TakenAt(gs: seq<Relay>, acts: seq<Action>, i: nat, k: nat, x: In) {
    && i < |acts| && i < |gs| && acts[i] == Go(Remote) && gs[i].pcs.r == DGot(x.d)
    && |gs[i].fromRemote.ins| == k && gs[i].probe.flag == x.flag
  }

  /** The flag recorded with each packet is the one in force when it was processed: there is a
      step of the run that took this packet while the flag was so. */
  lemma {:induction false} FlagWasSeen(gs: seq<Relay>, acts: seq<Action>, keepalive: bool, n: nat, k: nat)
    requires Run(gs, acts, keepalive) && n < |gs| && k < |gs[n].fromRemote.ins|
    ensures exists i :: 0 <= i < n && TakenAt(gs, acts, i, k, gs[n].fromRemote.ins[k])
  {
    if n > 0 {
      var g, a := gs[n - 1], acts[n - 1];
      assert Enabled(g, a) && gs[n - 1 + 1] == Step(g, a);
      RemoteTakes(g, a);
      if k < |g.fromRemote.ins| {
        FlagWasSeen(gs, acts, keepalive, n - 1, k);
      } else {
        assert TakenAt(gs, acts, n - 1, k, gs[n].fromRemote.ins[k]);
      }
    }
  }

  lemma RemoteTakes(g: Relay, a: Action)
    ensures var ins, ins' := g.fromRemote.ins, OnFlow(g.fromRemote, Remote, EffectOf(g, a)).ins;
            ins' == ins || (a == Go(Remote) && |ins'| == |ins| + 1 && ins'[..|ins|] == ins
                            && g.pcs.r == DGot(ins'[|ins|].d) && g.probe.flag == ins'[|ins|].flag)
  {
    if a != Go(Remote) {
      OthersFlow(g, a, Remote);
    }
  }

  lemma ClosingKeepalive(g: Relay, a: Action)
    requires Enabled(g, a)
    requires g.pcs.k == KClose || (g.pcs.k == KDone && g.latch.quit)
    ensures NextKeep(g, a) == KClose || (NextKeep(g, a) == KDone && OnLatch(g.latch, EffectOf(g, a)).quit)
    ensures OnProbe(g.probe, g.gfi, g.lci, EffectOf(g, a)).sent == g.probe.sent
  {
  }

  /** A due tick whose check, at step n, finds the flag still up closes the relay without
      sending: in the rest of the run no probe is ever sent, and the keepalive goroutine only
      closes the latch and exits. */
  lemma {:induction false} UnansweredProbeCloses(gs: seq<Relay>, acts: seq<Action>, keepalive: bool, n: nat, m: nat)
    requires Run(gs, acts, keepalive) && n < m < |gs|
    requires gs[n].pcs.k == KCheck && gs[n].probe.flag && acts[n].KGo?
    ensures gs[m].probe.sent == gs[n].probe.sent
    ensures gs[m].pcs.k == KClose || (gs[m].pcs.k == KDone && gs[m].latch.quit)
  {
    var g, a := gs[m - 1], acts[m - 1];
    assert Enabled(g, a) && gs[m - 1 + 1] == Step(g, a);
    if m > n + 1 {
      UnansweredProbeCloses(gs, acts, keepalive, n, m - 1);
      ClosingKeepalive(g, a);
    }
  }

  lemma QuitClosesOnce(gs: seq<Relay>, acts: seq<Action>, keepalive: bool, n: nat)
    requires Run(gs, acts, keepalive) && n < |gs|
    ensures gs[n].latch.closes <= 1 && (gs[n].latch.closes == 1 <==> gs[n].latch.quit)
  {
    RunKeepsInv(gs, acts, keepalive, n);
  }

  // ---- teardown ----

  // Program-order distance to the end, with a read that returns a packet as the only way up.
  function DirRank(pc: DirPc): nat {
    match pc
    case DGot(_) => 6
    case DSend(_) => 5
    case DSendClear(_) => 4
    case DTooLong(_) => 4
    case DRead => 3
    case DClose => 1
    case DDone => 0
  }

  function KeepRank(pc: KeepPc): nat {
    match pc
    case KWait => 6
    case KCheck => 5
    case KStore => 4
    case KSend => 3
    case KTick => 2
    case KClose => 1
    case _ => 0
  }

  function MainRank(pc: MainPc): nat {
    match pc
    case MSelect => 5
    case MClear => 4
    case MCloseRemote => 3
    case MCloseLocal => 2
    case MWait => 1
    case MDone => 0
  }

  function WaitRank(pc: WaitPc): nat {
    match pc
    case WWait => 2
    case WClose => 1
    case WDone => 0
  }

  function Rank(p: Pcs): nat {
    DirRank(p.r) + DirRank(p.l) + WaitRank(p.w) + KeepRank(p.k) + MainRank(p.m)
  }

  lemma OwnRanks(g: Relay, a: Action)
    requires Enabled(g, a)
    ensures a == Go(Remote) ==> DirRank(NextDir(g, a, Remote)) < DirRank(g.pcs.r)
    ensures a == Go(Local) ==> DirRank(NextDir(g, a, Local)) < DirRank(g.pcs.l)
    ensures a.WGo? ==> WaitRank(WaitStep(g.pcs.w).0) < WaitRank(g.pcs.w)
    ensures a.KGo? ==> KeepRank(NextKeep(g, a)) < KeepRank(g.pcs.k)
    ensures a.MGo? ==> MainRank(MainStep(g, a.stopped).0) < MainRank(g.pcs.m)
  {
  }

  /** Every step of the relay's own goroutines brings it closer to its end, and once both
      connections are closed nothing but a keepalive tick can push it back. */
  lemma InternalStepsDescend(g: Relay, a: Action)
    requires Enabled(g, a)
    ensures Internal(a) ==> Rank(NextPcs(g, a)) < Rank(g.pcs)
    ensures g.latch.remoteClosed && g.latch.localClosed && !Internal(a) && !a.Tick? ==> NextPcs(g, a) == g.pcs
  {
    OwnRanks(g, a);
  }

  // An internal step that is possible now, if there is one worth naming.
  function Runnable(g: Relay): Action {
    if g.pcs.m == MSelect then MGo(!g.latch.quit)
    else if g.pcs.m != MWait && g.pcs.m != MDone then MGo(false)
    else if g.pcs.r != DDone then Go(Remote)
    else if g.pcs.l != DDone then Go(Local)
    else if !KeepExited(g.pcs) then KGo(true)
    else if g.pcs.m == MWait then MGo(false)
    else WGo
  }

  predicate Finished(p: Pcs) {
    DirsDone(p) && KeepExited(p) && p.w == WDone && p.m == MDone
  }

  lemma RunnableEnabled(g: Relay)
    requires Follows(g.latch, g.pcs) && (g.latch.quit || g.latch.stop) && !Finished(g.pcs)
    ensures Internal(Runnable(g)) && Enabled(g, Runnable(g))
  {
  }

  /** Teardown cannot get stuck. While neither quit nor stop has fired, a direction is
      reading or can step, or the waiter can, clear collisions included; once either has
      fired, an internal step is possible until every goroutine has exited. */
  lemma NeverStuck(gs: seq<Relay>, acts: seq<Action>, keepalive: bool, n: nat)
    requires Run(gs, acts, keepalive) && n < |gs|
    ensures var g := gs[n];
            && (!g.latch.quit && !g.latch.stop ==>
                  (exists side :: PcOf(g, side) == DRead || Enabled(g, Go(side))) || Enabled(g, WGo))
            && ((g.latch.quit || g.latch.stop) && !Finished(g.pcs) ==>
                  Internal(Runnable(g)) && Enabled(g, Runnable(g)))
  {
    RunKeepsInv(gs, acts, keepalive, n);
    var g := gs[n];
    assert DirsDone(g.pcs) || PcOf(g, Remote) != DDone || PcOf(g, Local) != DDone;
    if (g.latch.quit || g.latch.stop) && !Finished(g.pcs) {
      RunnableEnabled(g);
    }
  }

  // How far one step can push the relay back: a read packet or a due tick by three.
  function Push(a: Action): nat {
    match a
    case Read(_, _) => 3
    case Fails(_, tooLong) => if tooLong.Some? then 1 else 0
    case Tick(due) => if due then 3 else 0
    case _ => 0
  }

  lemma PushBound(g: Relay, a: Action)
    requires Enabled(g, a)
    ensures Rank(NextPcs(g, a)) + (if Internal(a) then 1 else 0) <= Rank(g.pcs) + Push(a)
  {
    if Internal(a) {
      InternalStepsDescend(g, a);
    }
  }

  // The relay's own steps among acts[n..m], and what the environment pushed meanwhile.
  function OwnSteps(acts: seq<Action>, n: nat, m: nat): nat
    requires n <= m <= |acts|
  {
    if n == m then 0 else OwnSteps(acts, n, m - 1) + if Internal(acts[m - 1]) then 1 else 0
  }

  function Pushes(acts: seq<Action>, n: nat, m: nat): nat
    requires n <= m <= |acts|
  {
    if n == m then 0 else Pushes(acts, n, m - 1) + Push(acts[m - 1])
  }

  lemma {:induction false} Telescopes(ranks: seq<nat>, acts: seq<Action>, n: nat, m: nat)
    requires |ranks| == |acts| + 1 && n <= m <= |acts|
    requires forall i :: 0 <= i < |acts| ==> ranks[i + 1] + (if Internal(acts[i]) then 1 else 0) <= ranks[i] + Push(acts[i])
    ensures ranks[m] + OwnSteps(acts, n, m) <= ranks[n] + Pushes(acts, n, m)
  {
    if n < m {
      Telescopes(ranks, acts, n, m - 1);
      assert ranks[m - 1 + 1] + (if Internal(acts[m - 1]) then 1 else 0) <= ranks[m - 1] + Push(acts[m - 1]);
    }
  }

  /** Over every schedule: from any point of any run on, the relay's own goroutines take no
      more steps than the rank there plus what reads and ticks push back in between. */
  lemma OwnStepsBounded(gs: seq<Relay>, acts: seq<Action>, keepalive: bool, n: nat, m: nat)
    requires Run(gs, acts, keepalive) && n <= m < |gs|
    ensures Rank(gs[m].pcs) + OwnSteps(acts, n, m) <= Rank(gs[n].pcs) + Pushes(acts, n, m)
  {
    var ranks: seq<nat> := seq(|gs|, i requires 0 <= i < |gs| => Rank(gs[i].pcs));
    forall i | 0 <= i < |acts|
      ensures ranks[i + 1] + (if Internal(acts[i]) then 1 else 0) <= ranks[i] + Push(acts[i])
    {
      NthPush(gs, acts, keepalive, i);
    }
    Telescopes(ranks, acts, n, m);
  }

  lemma NthPush(gs: seq<Relay>, acts: seq<Action>, keepalive: bool, i: nat)
    requires Run(gs, acts, keepalive) && i < |acts|
    ensures Rank(gs[i + 1].pcs) + (if Internal(acts[i]) then 1 else 0) <= Rank(gs[i].pcs) + Push(acts[i])
  {
    assert Enabled(gs[i], acts[i]) && gs[i + 1] == Step(gs[i], acts[i]);
    PushBound(gs[i], acts[i]);
  }

  lemma {:induction false} AllOwn(acts: seq<Action>, n: nat, m: nat)
    requires n <= m <= |acts| && forall i :: n <= i < m ==> Internal(acts[i])
    ensures OwnSteps(acts, n, m) == m - n && Pushes(acts, n, m) == 0
  {
    if n < m {
      AllOwn(acts, n, m - 1);
    }
  }

  /** After quit or stop, a point of a run is the end exactly when no internal step is
      possible there. */
  lemma IdleIsFinished(gs: seq<Relay>, acts: seq<Action>, keepalive: bool, n: nat)
    requires Run(gs, acts, keepalive) && n < |gs| && (gs[n].latch.quit || gs[n].latch.stop)
    ensures Finished(gs[n].pcs) <==> forall a :: Internal(a) ==> !Enabled(gs[n], a)
  {
    RunKeepsInv(gs, acts, keepalive, n);
    IdleIff(gs[n]);
  }

  lemma IdleIff(g: Relay)
    requires Draining(g.latch, g.pcs)
    ensures Finished(g.pcs) <==> forall a :: Internal(a) ==> !Enabled(g, a)
  {
    if !Finished(g.pcs) {
      RunnableEnabled(g);
    }
  }

  /** So the wait group drains under every schedule: when the goroutines are left to
      themselves after quit or stop, they take at most Rank steps in whatever order, and
      wherever they can take no more, or have taken that many, all have exited. */
  lemma EveryScheduleDrains(gs: seq<Relay>, acts: seq<Action>, keepalive: bool, n: nat, m: nat)
    requires Run(gs, acts, keepalive) && n <= m < |gs| && (gs[n].latch.quit || gs[n].latch.stop)
    requires forall i :: n <= i < m ==> Internal(acts[i])
    ensures Rank(gs[m].pcs) + (m - n) <= Rank(gs[n].pcs)
    ensures (forall a :: Internal(a) ==> !Enabled(gs[m], a)) || m - n == Rank(gs[n].pcs) ==> Finished(gs[m].pcs)
  {
    OwnRunBounded(gs, acts, keepalive, n, m);
    StaysDraining(gs, acts, keepalive, n, m);
    IdleIsFinished(gs, acts, keepalive, m);
    RankZero(gs[m].pcs);
  }

  lemma OwnRunBounded(gs: seq<Relay>, acts: seq<Action>, keepalive: bool, n: nat, m: nat)
    requires Run(gs, acts, keepalive) && n <= m < |gs| && forall i :: n <= i < m ==> Internal(acts[i])
    ensures Rank(gs[m].pcs) + (m - n) <= Rank(gs[n].pcs)
  {
    OwnStepsBounded(gs, acts, keepalive, n, m);
    AllOwn(acts, n, m);
  }

  lemma RankZero(p: Pcs)
    ensures Rank(p) == 0 ==> Finished(p)
  {
  }

  lemma {:induction false} StaysDraining(gs: seq<Relay>, acts: seq<Action>, keepalive: bool, n: nat, m: nat)
    requires Run(gs, acts, keepalive) && n <= m < |gs| && (gs[n].latch.quit || gs[n].latch.stop)
    ensures gs[m].latch.quit || gs[m].latch.stop
  {
    if n < m {
      StaysDraining(gs, acts, keepalive, n, m - 1);
      assert gs[m - 1 + 1] == Step(gs[m - 1], acts[m - 1]);
      LatchOnwards(gs[m - 1].latch, EffectOf(gs[m - 1], acts[m - 1]));
    }
  }

  // g after the relay's goroutines run on their own for at most fuel steps, in one order.
  function Drain(g: Relay, fuel: nat): Relay
    decreases fuel
  {
    if fuel == 0 || !Enabled(g, Runnable(g)) then g else Drain(Step(g, Runnable(g)), fuel - 1)
  }

  ghost predicate Draining(c: Latch, p: Pcs) {
    Follows(c, p) && (c.quit || c.stop)
  }

  lemma RunnableDescends(g: Relay)
    requires Draining(g.latch, g.pcs) && !Finished(g.pcs)
    ensures var g' := Step(g, Runnable(g)); Draining(g'.latch, g'.pcs) && Rank(g'.pcs) < Rank(g.pcs)
  {
    RunnableEnabled(g);
    InternalStepsDescend(g, Runnable(g));
    NextFollows(g, Runnable(g));
    LatchOnwards(g.latch, EffectOf(g, Runnable(g)));
  }

  lemma {:induction false} Drains(g: Relay, fuel: nat)
    requires Draining(g.latch, g.pcs) && fuel >= Rank(g.pcs)
    ensures Finished(Drain(g, fuel).pcs)
    decreases fuel
  {
    if Finished(g.pcs) {
      assert !Enabled(g, Runnable(g));
    } else {
      RunnableEnabled(g);
      RunnableDescends(g);
      Drains(Step(g, Runnable(g)), fuel - 1);
    }
  }

  /** And there is such a schedule: possible steps lead to the end from any point of a run
      after quit or stop. */
  lemma RunDrains(gs: seq<Relay>, acts: seq<Action>, keepalive: bool, n: nat)
    requires Run(gs, acts, keepalive) && n < |gs| && (gs[n].latch.quit || gs[n].latch.stop)
    ensures Finished(Drain(gs[n], Rank(gs[n].pcs)).pcs)
  {
    RunKeepsInv(gs, acts, keepalive, n);
    Drains(gs[n], Rank(gs[n].pcs));
  }
}

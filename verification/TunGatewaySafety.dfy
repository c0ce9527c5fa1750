/** What holds in every interleaving of tun-gateway's goroutines. */
module TunGatewaySafety {
  import opened Wire
  import opened SessionTable
  import opened SessionManager
  import opened TunGateway
  import opened Runs

  // The effect of an action on the shared state.
  ghost function EffectOf(g: Gw, a: Action): Effect {
    match a
    case ReaderGo(intercept, order, dial) => ReaderStep(g, intercept, order, dial).1
    case ConnFails(c, reply) => if reply.None? then Quiet else Emit(ToPeer(c, reply.value))
    case ConnGo(c, s, order) => if c in g.conns then ConnStep(g, c, s, order).1 else Quiet
    case DialGo(id, dialed, s) => if id in g.dials then DialStep(g, id, dialed, s).1 else Quiet
    case SignalGo(order) => SignalStep(g, order).1
    case _ => Quiet
  }

  // g' has the shared state of g after the effect e.
  ghost predicate Shares(g: Gw, e: Effect, g': Gw) {
    var g1 := Apply(g, e);
    g'.t == g1.t && g'.log == g1.log && g'.born == g1.born && g'.swept == g1.swept
  }

  lemma SharedFollows(g: Gw, a: Action, g': Gw)
    requires Next(g, a, g')
    ensures Shares(g, EffectOf(g, a), g')
  {
  }

  // ---- the indexes ----

  // Every session ever created reaches its peer over a connection.
  ghost predicate TableInv(g: Gw) {
    && Weak(g.t)
    && (forall k :: k in g.t.sessions ==> g.t.sessions[k] in g.born)
    && (forall s :: s in g.born ==> s.connB.Some?)
  }

  // A created session is new and has a connection.
  ghost predicate Fresh(g: Gw, e: Effect) {
    e.Do? ==> forall s :: s in Creates(g.t, e.op) ==> s !in g.born && s.connB.Some?
  }

  /** Sessions enter the indexes only when they are created: once out, always out. */
  lemma EffectKeepsTable(g: Gw, e: Effect, g': Gw)
    requires TableInv(g) && Fresh(g, e) && Shares(g, e, g')
    ensures TableInv(g') && g.born <= g'.born
    ensures forall s :: s in g.born && Registered(g'.t, s) ==> Registered(g.t, s)
  {
    if e.Do? {
      OpKeepsWeak(g.t, e.op);
      var t' := Perform(g.t, e.op);
      forall k | k in t'.sessions ensures t'.sessions[k] in g.born + Creates(g.t, e.op) {
        assert Registered(t', t'.sessions[k]);
      }
    }
  }

  lemma ConnCreatesFresh(g: Gw, c: Conn, s: Session, order: seq<Session>)
    requires g.t.ring.Valid() && c in g.conns && FreshAt(g, c, s)
    ensures Fresh(g, ConnStep(g, c, s, order).1)
  {
  }

  lemma CreatedIsFresh(g: Gw, a: Action, g': Gw)
    requires g.t.ring.Valid() && Next(g, a, g')
    ensures Fresh(g, EffectOf(g, a))
  {
    match a {
      case ConnGo(c, s, order) => ConnCreatesFresh(g, c, s, order);
      case DialGo(id, dialed, s) =>
      case _ =>
    }
  }

  lemma NextTable(g: Gw, a: Action, g': Gw)
    requires TableInv(g) && Next(g, a, g')
    ensures TableInv(g') && g.born <= g'.born
    ensures forall s :: s in g.born && Registered(g'.t, s) ==> Registered(g.t, s)
  {
    SharedFollows(g, a, g');
    CreatedIsFresh(g, a, g');
    EffectKeepsTable(g, EffectOf(g, a), g');
  }

  // ---- clearing handed over by the reader ----

  function ReaderHeld(pc: ReaderPc): set<Session> {
    match pc
    case RCallRemove(_, _, s) => {s}
    case RHave(_, _, s) => {s}
    case RClearConfirm(_, s) => {s}
    case RRemove(_, s) => {s}
    case RClearSend(_, s) => {s}
    case RForward(_, _, s) => {s}
    case _ => {}
  }

  /** A session the reader has handed over, or is about to, is out of every index. */
  ghost predicate GoneInv(g: Gw) {
    && ReaderHeld(g.reader) <= g.born
    && (g.reader.RClearSend? ==> !Registered(g.t, g.reader.s))
    && LogGone(g)
  }

  lemma ReaderStepHolds(g: Gw, intercept: bool, order: seq<Session>, dial: nat)
    ensures var pc := ReaderStep(g, intercept, order, dial).0;
            && ReaderHeld(pc) <= ReaderHeld(g.reader) + g.t.byALCI.Values
            && (pc.RClearSend? ==> g.reader.RRemove? && pc.s == g.reader.s)
  {
  }

  // Who may move the reader, and who the signal handler.
  ghost predicate ReaderMoves(g: Gw, a: Action, g': Gw) {
    match a
    case ReadTun(hdr, p) => g.reader.RIdle? && g'.reader == AfterReadTun(hdr, p)
    case TunClosed => g'.reader == RDone
    case ReaderGo(intercept, order, dial) => g'.reader == ReaderStep(g, intercept, order, dial).0
    case _ => g'.reader == g.reader
  }

  // No effect moves the reader or the signal handler, and only few touch the rest.
  lemma ApplyKeeps(g: Gw, e: Effect)
    ensures Apply(g, e).reader == g.reader && Apply(g, e).signal == g.signal
    ensures !e.SetLink? ==> Apply(g, e).link == g.link
    ensures Apply(g, e).conns == if e.SetConn? then g.conns[e.conn := e.pc] else g.conns
  {
  }

  lemma OwnPcs(g: Gw, a: Action, g': Gw)
    requires Next(g, a, g')
    ensures ReaderMoves(g, a, g')
  {
    ApplyKeeps(g, EffectOf(g, a));
  }

  lemma OwnSignalPc(g: Gw, a: Action, g': Gw)
    requires Next(g, a, g')
    ensures match a
            case Signal => g.signal.SIdle? && g'.signal == SFlag
            case SignalGo(order) => g'.signal == SignalStep(g, order).0
            case _ => g'.signal == g.signal
  {
    ApplyKeeps(g, EffectOf(g, a));
  }

  lemma KernelSideBorn(g: Gw)
    requires TableInv(g)
    ensures g.t.byALCI.Values <= g.born
  {
    assert forall l :: l in g.t.byALCI ==> Registered(g.t, g.t.byALCI[l]);
  }

  lemma ReaderKeepsHeld(g: Gw, a: Action, g': Gw)
    requires TableInv(g) && ReaderHeld(g.reader) <= g.born
    requires ReaderMoves(g, a, g') && Shares(g, EffectOf(g, a), g')
    ensures ReaderHeld(g'.reader) <= g.born
    ensures g'.reader.RClearSend? ==>
              if a.ReaderGo? then g.reader.RRemove? && g'.reader.s == g.reader.s && g'.t == Remove(g.t, g.reader.s)
              else g'.reader == g.reader
  {
    if a.ReaderGo? {
      KernelSideBorn(g);
      ReaderStepHolds(g, a.intercept, a.order, a.dial);
    }
  }

  ghost predicate LogGone(g: Gw) {
    forall i :: 0 <= i < |g.log| && g.log[i].ReaderClear? ==>
                  g.log[i].s in g.born && !Registered(g.t, g.log[i].s)
  }

  lemma LogStaysGone(g: Gw, e: Effect, g': Gw)
    requires TableInv(g) && LogGone(g) && Fresh(g, e) && Shares(g, e, g')
    requires e.Emit? && e.o.ReaderClear? ==> e.o.s in g.born && !Registered(g.t, e.o.s)
    ensures LogGone(g')
  {
    EffectKeepsTable(g, e, g');
  }

  lemma NextGone(g: Gw, a: Action, g': Gw)
    requires TableInv(g) && GoneInv(g) && Next(g, a, g')
    ensures GoneInv(g')
  {
    SharedFollows(g, a, g');
    CreatedIsFresh(g, a, g');
    EffectKeepsTable(g, EffectOf(g, a), g');
    OnlyReaderHandsOver(g, a);
    LogStaysGone(g, EffectOf(g, a), g');
    OwnPcs(g, a, g');
    ReaderKeepsHeld(g, a, g');
    if g'.reader.RClearSend? && a.ReaderGo? {
      RemoveKeepsWeak(g.t, g.reader.s);
      IndexedIffRegistered(g'.t, g.reader.s);
    }
  }

  lemma OnlyReaderHandsOver(g: Gw, a: Action)
    ensures var e := EffectOf(g, a);
            e.Emit? && e.o.ReaderClear? ==> a.ReaderGo? && g.reader.RClearSend? && e.o.s == g.reader.s
  {
  }

  // ---- cleanups ----

  function CleanRest(pc: ConnPc): seq<Session> {
    if pc.CClean? || pc.CCleanGuard? || pc.CCleanWrite? || pc.CCleanRemove? then pc.rest else []
  }

  function CleanSince(pc: ConnPc): nat {
    if pc.CClean? || pc.CCleanGuard? || pc.CCleanWrite? || pc.CCleanRemove? then pc.since else 0
  }

  ghost predicate HandedOver(log: seq<Output>, n: nat, s: Session) {
    exists i :: 0 <= i < n && i < |log| && log[i].ReaderClear? && log[i].s == s
  }

  lemma HandedOverPrefix(log: seq<Output>, log': seq<Output>, n: nat, s: Session)
    requires log <= log' && n <= |log|
    ensures HandedOver(log, n, s) <==> HandedOver(log', n, s)
  {
  }

  ghost predicate CleanOk(log: seq<Output>, pc: ConnPc) {
    && CleanSince(pc) <= |log|
    && forall s :: s in CleanRest(pc) ==> !HandedOver(log, CleanSince(pc), s)
  }

  /** A cleanup never holds a session handed over before its snapshot. */
  ghost predicate CleanInv(g: Gw) {
    forall c :: c in g.conns ==> CleanOk(g.log, g.conns[c])
  }

  /** Nor has any cleanup CLEAR already written been for such a session. */
  ghost predicate ClearLogInv(g: Gw) {
    forall j :: 0 <= j < |g.log| && g.log[j].CleanupClear? ==>
                  g.log[j].since <= j && !HandedOver(g.log, g.log[j].since, g.log[j].s)
  }

  lemma LogGrows(g: Gw, e: Effect, g': Gw)
    requires Shares(g, e, g')
    ensures g.log <= g'.log && g'.log == if e.Emit? then g.log + [e.o] else g.log
  {
  }

  // A connection's program point keeps its cleanup list or shortens it, except at the snapshot.
  ghost predicate Shortens(pc: ConnPc, pc': ConnPc) {
    CleanRest(pc') != [] ==>
      && CleanSince(pc') == CleanSince(pc) && CleanRest(pc) != []
      && (CleanRest(pc') == CleanRest(pc) || CleanRest(pc') == CleanRest(pc)[1..])
  }

  lemma ConnShortens(g: Gw, c: Conn, s: Session, order: seq<Session>)
    requires c in g.conns && !g.conns[c].CCleanup?
    ensures Shortens(g.conns[c], ConnStep(g, c, s, order).0)
    ensures CleanSince(ConnStep(g, c, s, order).0) <= CleanSince(g.conns[c])
  {
  }

  lemma ShorterIsOk(log: seq<Output>, log': seq<Output>, pc: ConnPc, pc': ConnPc)
    requires CleanOk(log, pc) && log <= log' && CleanSince(pc') <= CleanSince(pc)
    requires Shortens(pc, pc')
    ensures CleanOk(log', pc')
  {
    forall s | s in CleanRest(pc') ensures !HandedOver(log', CleanSince(pc'), s) {
      assert s in CleanRest(pc);
      HandedOverPrefix(log, log', CleanSince(pc), s);
    }
  }

  lemma SnapshotIsOk(g: Gw, c: Conn, order: seq<Session>)
    requires TableInv(g) && GoneInv(g) && Lists(order, ForConn(g.t, c))
    ensures CleanOk(g.log, CClean(order, |g.log|))
  {
    forall s | s in order ensures !HandedOver(g.log, |g.log|, s) {
      assert s in Elems(order);
      assert c in g.t.byBConn && s in g.t.byBConn[c].Values;
      var l :| l in g.t.byBConn[c] && g.t.byBConn[c][l] == s;
      assert OwnB(g.t, c, l, s);
    }
  }

  // Only dialers set a connection's program point from outside, and never inside a cleanup.
  lemma OnlyDialersSet(g: Gw, a: Action)
    ensures var e := EffectOf(g, a);
            e.SetConn? ==> a.DialGo? && CleanRest(e.pc) == [] && CleanSince(e.pc) == 0
  {
  }

  // The connections whose program point an action other than the connection's own may set.
  lemma OthersPcs(g: Gw, a: Action, g': Gw, c: Conn)
    requires Next(g, a, g') && c in g'.conns
    requires !(a.ConnGo? && a.conn == c)
    ensures (c in g.conns && g'.conns[c] == g.conns[c]) || (CleanRest(g'.conns[c]) == [] && CleanSince(g'.conns[c]) == 0)
  {
    ApplyKeeps(g, EffectOf(g, a));
    OnlyDialersSet(g, a);
  }

  lemma NextClean(g: Gw, a: Action, g': Gw)
    requires TableInv(g) && GoneInv(g) && CleanInv(g) && Next(g, a, g')
    ensures CleanInv(g')
  {
    SharedFollows(g, a, g');
    LogGrows(g, EffectOf(g, a), g');
    forall c | c in g'.conns ensures CleanOk(g'.log, g'.conns[c]) {
      if a.ConnGo? && a.conn == c {
        assert CleanOk(g.log, g.conns[c]);
        if g.conns[c].CCleanup? {
          SnapshotIsOk(g, c, a.order);
        } else {
          ConnShortens(g, c, a.s, a.order);
          ShorterIsOk(g.log, g'.log, g.conns[c], g'.conns[c]);
        }
      } else {
        OthersPcs(g, a, g', c);
        if c in g.conns && g'.conns[c] == g.conns[c] {
          ShorterIsOk(g.log, g'.log, g.conns[c], g.conns[c]);
        }
      }
    }
  }

  lemma OnlyCleanupClears(g: Gw, a: Action)
    ensures var e := EffectOf(g, a);
            e.Emit? && e.o.CleanupClear? ==>
              && a.ConnGo? && a.conn in g.conns && CleanRest(g.conns[a.conn]) != []
              && e.o.s == CleanRest(g.conns[a.conn])[0] && e.o.since == CleanSince(g.conns[a.conn])
  {
  }

  lemma NextClearLog(g: Gw, a: Action, g': Gw)
    requires CleanInv(g) && ClearLogInv(g) && Shares(g, EffectOf(g, a), g')
    ensures ClearLogInv(g')
  {
    OnlyCleanupClears(g, a);
    forall j | 0 <= j < |g'.log| && g'.log[j].CleanupClear?
      ensures g'.log[j].since <= j && !HandedOver(g'.log, g'.log[j].since, g'.log[j].s)
    {
      if j >= |g.log| {
        assert CleanOk(g.log, g.conns[a.conn]);
      }
      HandedOverPrefix(g.log, g'.log, g'.log[j].since, g'.log[j].s);
    }
  }

  // ---- sweeps ----

  function ReaderRest(pc: ReaderPc): seq<Session> {
    if pc.RSweepSend? then pc.rest else []
  }

  function SignalRest(pc: SignalPc): seq<Session> {
    if pc.SSweepSend? then pc.rest else []
  }

  // The sessions for which a sweep has sent its CLEAR_REQUEST, with multiplicity.
  function Cleared(log: seq<Output>): multiset<Session> {
    if log == [] then multiset{}
    else
      var rest := Cleared(log[..|log| - 1]);
      if log[|log| - 1].SweepClear? then rest + multiset{log[|log| - 1].s} else rest
  }

  /** Conservation: each session ever swept is either still waiting in exactly one of the
      two sweeps, once, or has had exactly one CLEAR_REQUEST sent. */
  ghost predicate SweepInv(g: Gw) {
    && Conserved(g)
    && g.swept <= g.born
    && forall s :: s in g.swept ==> !Registered(g.t, s)
  }

  ghost predicate Conserved(g: Gw) {
    Cleared(g.log) + multiset(ReaderRest(g.reader)) + multiset(SignalRest(g.signal)) == multiset(g.swept)
  }

  lemma ClearedEmit(log: seq<Output>, o: Output)
    ensures Cleared(log + [o]) == if o.SweepClear? then Cleared(log) + multiset{o.s} else Cleared(log)
  {
    assert (log + [o])[..|log|] == log;
  }

  lemma {:induction false} ListsMultiset(order: seq<Session>, ss: set<Session>)
    requires Lists(order, ss)
    ensures multiset(order) == multiset(ss)
    decreases |order|
  {
    if order == [] {
      assert ss == Elems(order);
    } else {
      var init := order[..|order| - 1];
      var x := order[|order| - 1];
      assert order == init + [x] && x !in init;
      assert Elems(order) == Elems(init) + {x};
      ListsMultiset(init, ss - {x});
    }
  }

  // Only the two sweepers remove everything or send a sweep's CLEAR.
  lemma OnlySweepersSweep(g: Gw, a: Action)
    requires !a.ReaderGo? && !a.SignalGo?
    ensures EffectOf(g, a).Do? ==> !EffectOf(g, a).op.OpRemoveAll?
    ensures EffectOf(g, a).Emit? ==> !EffectOf(g, a).o.SweepClear?
  {
  }

  // How one sweeper's waiting list and its effect belong together.
  ghost predicate SweeperMoves(rest: seq<Session>, e: Effect, rest': seq<Session>, sessions: set<Session>) {
    if e == Do(OpRemoveAll) then rest == [] && Lists(rest', sessions)
    else if rest != [] then e == SweepOne(rest[0]) && rest' == rest[1..]
    else rest' == [] && (e.Do? ==> !e.op.OpRemoveAll?) && (e.Emit? ==> !e.o.SweepClear?)
  }

  lemma ReaderSweeps(g: Gw, a: Action, g': Gw)
    requires Next(g, a, g') && a.ReaderGo?
    ensures SweeperMoves(ReaderRest(g.reader), EffectOf(g, a), ReaderRest(g'.reader), g.t.sessions.Values)
  {
  }

  lemma SignalSweeps(g: Gw, a: Action, g': Gw)
    requires Next(g, a, g') && a.SignalGo?
    ensures SweeperMoves(SignalRest(g.signal), EffectOf(g, a), SignalRest(g'.signal), g.t.sessions.Values)
  {
  }

  lemma SendMoves(log: seq<Output>, rest: seq<Session>, d: Bytes, other: multiset<Session>, all: multiset<Session>)
    requires rest != [] && Cleared(log) + multiset(rest) + other == all
    ensures Cleared(log + [SweepClear(rest[0], d)]) + multiset(rest[1..]) + other == all
    ensures rest[0] in all
  {
    ClearedEmit(log, SweepClear(rest[0], d));
    assert rest == [rest[0]] + rest[1..];
    assert multiset(rest) == multiset{rest[0]} + multiset(rest[1..]);
  }

  lemma SweepBooks(g: Gw, e: Effect, g': Gw, rest: seq<Session>, rest': seq<Session>, other: multiset<Session>)
    requires TableInv(g) && g.swept <= g.born && (forall s :: s in g.swept ==> !Registered(g.t, s))
    requires Cleared(g.log) + multiset(rest) + other == multiset(g.swept)
    requires Shares(g, e, g') && SweeperMoves(rest, e, rest', g.t.sessions.Values)
    ensures Cleared(g'.log) + multiset(rest') + other == multiset(g'.swept)
  {
    if e == Do(OpRemoveAll) {
      SweptJoins(g, rest');
      AllJoin(Cleared(g.log), other, multiset(g.swept), rest');
    } else if rest != [] {
      SendBooks(g, e, g', rest, other);
    } else {
      OtherBooks(g, e, g');
    }
  }

  lemma AllJoin(cleared: multiset<Session>, other: multiset<Session>, all: multiset<Session>, order: seq<Session>)
    requires cleared + multiset([]) + other == all
    ensures cleared + multiset(order) + other == all + multiset(order)
  {
    assert cleared + other == cleared + multiset([]) + other;
  }

  lemma SendBooks(g: Gw, e: Effect, g': Gw, rest: seq<Session>, other: multiset<Session>)
    requires TableInv(g) && g.swept <= g.born
    requires Cleared(g.log) + multiset(rest) + other == multiset(g.swept)
    requires Shares(g, e, g') && rest != [] && e == SweepOne(rest[0])
    ensures Cleared(g'.log) + multiset(rest[1..]) + other == multiset(g'.swept)
  {
    SendMoves(g.log, rest, ClearRequest(rest[0].gfi, rest[0].lciB, CAUSE_NETWORK_CONGESTION, 0),
              other, multiset(g.swept));
  }

  lemma OtherBooks(g: Gw, e: Effect, g': Gw)
    requires Shares(g, e, g')
    requires (e.Do? ==> !e.op.OpRemoveAll?) && (e.Emit? ==> !e.o.SweepClear?)
    ensures Cleared(g'.log) == Cleared(g.log) && g'.swept == g.swept
  {
    if e.Emit? {
      ClearedEmit(g.log, e.o);
    }
  }

  lemma SweptJoins(g: Gw, order: seq<Session>)
    requires TableInv(g) && (forall s :: s in g.swept ==> !Registered(g.t, s))
    requires Lists(order, g.t.sessions.Values)
    ensures multiset(g.swept + g.t.sessions.Values) == multiset(g.swept) + multiset(order)
  {
    ListsMultiset(order, g.t.sessions.Values);
    forall s | s in g.t.sessions.Values ensures s !in g.swept {
      var k :| k in g.t.sessions && g.t.sessions[k] == s;
      assert Registered(g.t, s);
    }
  }

  lemma SweptStayGone(g: Gw, e: Effect, g': Gw)
    requires TableInv(g) && Fresh(g, e) && Shares(g, e, g')
    requires g.swept <= g.born && forall s :: s in g.swept ==> !Registered(g.t, s)
    ensures g'.swept <= g'.born && forall s :: s in g'.swept ==> !Registered(g'.t, s)
  {
    EffectKeepsTable(g, e, g');
  }

  lemma NextSweep(g: Gw, a: Action, g': Gw)
    requires TableInv(g) && SweepInv(g) && Next(g, a, g')
    ensures SweepInv(g')
  {
    SharedFollows(g, a, g');
    CreatedIsFresh(g, a, g');
    SweptStayGone(g, EffectOf(g, a), g');
    NextConserves(g, a, g');
  }

  lemma NextConserves(g: Gw, a: Action, g': Gw)
    requires TableInv(g) && SweepInv(g) && Next(g, a, g')
    ensures Conserved(g')
  {
    SharedFollows(g, a, g');
    OwnPcs(g, a, g');
    OwnSignalPc(g, a, g');
    var e := EffectOf(g, a);
    if a.ReaderGo? {
      ReaderSweeps(g, a, g');
      SweepBooks(g, e, g', ReaderRest(g.reader), ReaderRest(g'.reader), multiset(SignalRest(g.signal)));
    } else if a.SignalGo? {
      SignalSweeps(g, a, g');
      SweepBooks(g, e, g', SignalRest(g.signal), SignalRest(g'.signal), multiset(ReaderRest(g.reader)));
    } else {
      OnlySweepersSweep(g, a);
      OtherBooks(g, e, g');
    }
  }

  // ---- whole runs ----

  ghost predicate Inv(g: Gw) {
    TableInv(g) && GoneInv(g) && CleanInv(g) && ClearLogInv(g) && SweepInv(g)
  }

  lemma {:induction false} RunKeepsInv(gs: seq<Gw>, acts: seq<Action>, n: nat)
    requires Run(gs, acts) && n < |gs|
    ensures Inv(gs[n])
  {
    if n == 0 {
      assert Cleared(gs[0].log) == multiset{};
    } else {
      RunKeepsInv(gs, acts, n - 1);
      var g, a, g' := gs[n - 1], acts[n - 1], gs[n - 1 + 1];
      assert Next(g, a, g');
      NextTable(g, a, g');
      NextGone(g, a, g');
      NextClean(g, a, g');
      SharedFollows(g, a, g');
      NextClearLog(g, a, g');
      NextSweep(g, a, g');
    }
  }

  /** Remove before forwarding: whenever the reader has sent a kernel CLEAR_REQUEST or
      CLEAR_CONFIRM on a session's connection, no index leads to that session, then or at
      any later point of the run. */
  lemma HandedOverIsGone(gs: seq<Gw>, acts: seq<Action>, n: nat, i: nat)
    requires Run(gs, acts) && n < |gs|
    requires i < |gs[n].log| && gs[n].log[i].ReaderClear?
    ensures !Indexed(gs[n].t, gs[n].log[i].s)
  {
    RunKeepsInv(gs, acts, n);
    IndexedIffRegistered(gs[n].t, gs[n].log[i].s);
  }

  /** A cleanup CLEAR written for a session the reader has handed over comes from a
      snapshot taken before the hand-over: a cleanup that starts later writes none. */
  lemma NoClearAfterHandOver(gs: seq<Gw>, acts: seq<Action>, n: nat, i: nat, j: nat)
    requires Run(gs, acts) && n < |gs|
    requires i < |gs[n].log| && gs[n].log[i].ReaderClear?
    requires j < |gs[n].log| && gs[n].log[j].CleanupClear? && gs[n].log[j].s == gs[n].log[i].s
    ensures gs[n].log[j].since <= i
  {
    RunKeepsInv(gs, acts, n);
    assert !HandedOver(gs[n].log, gs[n].log[j].since, gs[n].log[j].s);
  }

  /** Sweeps conserve sessions: when no sweep is under way, the sessions ever swept and the
      sessions cleared by sweeps are the same, each cleared exactly once. */
  lemma EachSweptClearedOnce(gs: seq<Gw>, acts: seq<Action>, n: nat)
    requires Run(gs, acts) && n < |gs|
    requires ReaderRest(gs[n].reader) == [] && SignalRest(gs[n].signal) == []
    ensures Cleared(gs[n].log) == multiset(gs[n].swept)
  {
    RunKeepsInv(gs, acts, n);
  }

  /** Even mid-sweep, and with both sweepers running, no session is cleared twice. */
  lemma NeverClearedTwice(gs: seq<Gw>, acts: seq<Action>, n: nat, s: Session)
    requires Run(gs, acts) && n < |gs|
    ensures Cleared(gs[n].log)[s] <= 1
  {
    RunKeepsInv(gs, acts, n);
    assert Cleared(gs[n].log) <= multiset(gs[n].swept);
  }

  // ---- whom a clear names ----

  /** A CLEAR sent for a session carries the LCI of the side it is sent to: the peer's for
      sweeps and hand-overs, the kernel's for cleanups. */
  predicate NamesOwn(o: Output) {
    match o
    case SweepClear(s, d) => s.connB.Some? && GetType(d) == CLEAR_REQUEST && GetLCI(d) == s.lciB % 4096
    case CleanupClear(s, d, _) => GetType(d) == CLEAR_REQUEST && GetLCI(d) == s.lciA % 4096
    case ReaderClear(s, d) => IsClear(GetType(d)) && GetLCI(d) == s.lciB % 4096
    case _ => true
  }

  predicate HoldsClear(pc: ReaderPc) {
    pc.RClearConfirm? || pc.RRemove? || pc.RClearSend? ==> IsClear(GetType(pc.p))
  }

  lemma ClearNames(gfi: byte, lci: LciField, cause: byte)
    ensures GetType(ClearRequest(gfi, lci, cause, 0)) == CLEAR_REQUEST
    ensures GetLCI(ClearRequest(gfi, lci, cause, 0)) == lci % 4096
  {
    HeaderByte(gfi, lci);
  }

  lemma SweepNames(s: Session)
    ensures SweepOne(s).Emit? ==> NamesOwn(SweepOne(s).o)
  {
    ClearNames(s.gfi, s.lciB, CAUSE_NETWORK_CONGESTION);
  }

  lemma ReaderNames(g: Gw, intercept: bool, order: seq<Session>, dial: nat)
    requires HoldsClear(g.reader)
    ensures HoldsClear(ReaderStep(g, intercept, order, dial).0)
    ensures var e := ReaderStep(g, intercept, order, dial).1; e.Emit? ==> NamesOwn(e.o)
  {
    match g.reader {
      case RClearSend(p, s) => RelabelFrame(p, s.lciB);
      case RSweepSend(rest, next) =>
        if rest != [] {
          SweepNames(rest[0]);
        }
      case _ =>
    }
  }

  lemma ConnNames(g: Gw, c: Conn, s: Session, order: seq<Session>)
    requires c in g.conns
    ensures var e := ConnStep(g, c, s, order).1; e.Emit? ==> NamesOwn(e.o)
  {
    match g.conns[c] {
      case CCleanWrite(rest, since) =>
        if rest != [] {
          ClearNames(rest[0].gfi, rest[0].lciA, CAUSE_OUT_OF_ORDER);
        }
      case _ =>
    }
  }

  lemma StepNames(g: Gw, a: Action, g': Gw)
    requires HoldsClear(g.reader) && Next(g, a, g')
    ensures HoldsClear(g'.reader)
    ensures EffectOf(g, a).Emit? ==> NamesOwn(EffectOf(g, a).o)
  {
    OwnPcs(g, a, g');
    if a.ReaderGo? {
      ReaderNames(g, a.intercept, a.order, a.dial);
    } else if a.ConnGo? {
      ConnNames(g, a.conn, a.s, a.order);
    } else if a.SignalGo? && g.signal.SSweepSend? && g.signal.rest != [] {
      SweepNames(g.signal.rest[0]);
    }
  }

  lemma {:induction false} ClearsNameTheirSession(gs: seq<Gw>, acts: seq<Action>, n: nat)
    requires Run(gs, acts) && n < |gs|
    ensures HoldsClear(gs[n].reader)
    ensures forall i :: 0 <= i < |gs[n].log| ==> NamesOwn(gs[n].log[i])
  {
    if n > 0 {
      var g, a, g' := gs[n - 1], acts[n - 1], gs[n - 1 + 1];
      ClearsNameTheirSession(gs, acts, n - 1);
      assert Next(g, a, g');
      StepNames(g, a, g');
      SharedFollows(g, a, g');
      LogGrows(g, EffectOf(g, a), g');
    }
  }

  // ---- restarts ----

  // What the reader remembers of the link state while it answers a RESTART_REQUEST.
  ghost predicate LinkRemembered(g: Gw) {
    match g.reader
    case RRestartSeen(_, operational) => operational <==> g.link == Operational
    case RRestartConfirm(_, operational) => operational <==> g.link == Operational
    case RSweep(next) => next.ToConfirm? ==> g.link == Operational
    case RSweepSend(_, next) => next.ToConfirm? ==> g.link == Operational
    case _ => true
  }

  lemma OnlyReaderSetsLink(g: Gw, a: Action)
    ensures EffectOf(g, a).SetLink? ==> a.ReaderGo?
  {
  }

  lemma LinkMoves(g: Gw, a: Action, g': Gw)
    requires Next(g, a, g')
    ensures g'.link == if a.ReaderGo? then Apply(g, EffectOf(g, a)).link else g.link
  {
    ApplyKeeps(g, EffectOf(g, a));
    OnlyReaderSetsLink(g, a);
  }

  lemma MovesRemember(g: Gw, a: Action, g': Gw)
    requires LinkRemembered(g) && ReaderMoves(g, a, g')
    requires g'.link == if a.ReaderGo? then Apply(g, EffectOf(g, a)).link else g.link
    ensures LinkRemembered(g')
  {
  }

  lemma NextLink(g: Gw, a: Action, g': Gw)
    requires LinkRemembered(g) && Next(g, a, g')
    ensures LinkRemembered(g')
  {
    OwnPcs(g, a, g');
    LinkMoves(g, a, g');
    MovesRemember(g, a, g');
  }

  // The reader's last step before point n that moved it.
  predicate Sweeping(pc: ReaderPc, p: Bytes) {
    pc == RSweep(ToConfirm(p)) || (pc.RSweepSend? && pc.next == ToConfirm(p)) || pc == RRestartConfirm(p, true)
  }

  lemma SweepingStep(g: Gw, intercept: bool, order: seq<Session>, dial: nat, p: Bytes)
    requires Sweeping(ReaderStep(g, intercept, order, dial).0, p)
    ensures var (pc, e) := ReaderStep(g, intercept, order, dial);
            if pc.RSweep? then g.reader == RRestartSeen(p, true) && g.t.sessions != map[]
            else Sweeping(g.reader, p) && (g.reader.RSweep? ==> e == Do(OpRemoveAll))
  {
  }

  lemma SweepingFrom(g: Gw, a: Action, g': Gw, p: Bytes)
    requires ReaderMoves(g, a, g') && Shares(g, EffectOf(g, a), g') && Sweeping(g'.reader, p)
    ensures Sweeping(g.reader, p) || (g.reader == RRestartSeen(p, true) && g.t.sessions != map[] && g'.reader.RSweep?)
    ensures !g'.reader.RSweep? && g.reader == RSweep(ToConfirm(p)) ==> g'.t == RemoveAll(g.t)
  {
    if a.ReaderGo? {
      SweepingStep(g, a.intercept, a.order, a.dial, p);
    }
  }

  ghost predicate SawSessions(gs: seq<Gw>, i: nat, p: Bytes) {
    i < |gs| && gs[i].reader == RRestartSeen(p, true) && gs[i].t.sessions != map[]
  }

  ghost predicate SweptAt(gs: seq<Gw>, j: nat, p: Bytes) {
    j + 1 < |gs| && gs[j].reader == RSweep(ToConfirm(p)) && gs[j + 1].t == RemoveAll(gs[j].t)
  }

  // Since step i, which saw sessions, the reader has been busy with that one request.
  ghost predicate Answering(gs: seq<Gw>, i: nat, n: nat, p: Bytes) {
    && i < n < |gs| && SawSessions(gs, i, p)
    && forall k :: i < k <= n ==> Sweeping(gs[k].reader, p)
  }

  // The sweep of that request has been done.
  ghost predicate SweptSince(gs: seq<Gw>, i: nat, n: nat, p: Bytes) {
    exists j :: i < j < n && SweptAt(gs, j, p)
  }

  lemma NthSweeping(gs: seq<Gw>, acts: seq<Action>, i: nat, p: Bytes)
    requires Run(gs, acts) && i < |acts| && Sweeping(gs[i + 1].reader, p)
    ensures Sweeping(gs[i].reader, p) || (SawSessions(gs, i, p) && gs[i + 1].reader.RSweep?)
    ensures !gs[i + 1].reader.RSweep? && gs[i].reader == RSweep(ToConfirm(p)) ==> SweptAt(gs, i, p)
  {
    assert Next(gs[i], acts[i], gs[i + 1]);
    OwnPcs(gs[i], acts[i], gs[i + 1]);
    SharedFollows(gs[i], acts[i], gs[i + 1]);
    SweepingFrom(gs[i], acts[i], gs[i + 1], p);
  }

  lemma {:induction false} SweepingHistory(gs: seq<Gw>, acts: seq<Action>, n: nat, p: Bytes)
    requires Run(gs, acts) && n < |gs| && Sweeping(gs[n].reader, p)
    ensures exists i :: 0 <= i < n && Answering(gs, i, n, p) && (!gs[n].reader.RSweep? ==> SweptSince(gs, i, n, p))
  {
    if n > 0 {
      var g, g' := gs[n - 1], gs[n - 1 + 1];
      NthSweeping(gs, acts, n - 1, p);
      if Sweeping(g.reader, p) {
        SweepingHistory(gs, acts, n - 1, p);
        var i :| 0 <= i < n - 1 && Answering(gs, i, n - 1, p) && (!g.reader.RSweep? ==> SweptSince(gs, i, n - 1, p));
        assert Answering(gs, i, n, p);
      } else {
        assert Answering(gs, n - 1, n, p);
      }
    }
  }

  lemma {:induction false} RunKeepsLink(gs: seq<Gw>, acts: seq<Action>, n: nat)
    requires Run(gs, acts) && n < |gs|
    ensures LinkRemembered(gs[n])
  {
    if n > 0 {
      RunKeepsLink(gs, acts, n - 1);
      assert Next(gs[n - 1], acts[n - 1], gs[n - 1 + 1]);
      NextLink(gs[n - 1], acts[n - 1], gs[n - 1 + 1]);
    }
  }

  /** A RESTART_CONFIRM leaves an operational link only if the reader, while handling that
      same request, saw a non-empty session table and then swept it: from the step that saw
      the sessions to the confirm it does nothing but answer this request. */
  lemma RestartConfirmAfterSweep(gs: seq<Gw>, acts: seq<Action>, n: nat)
    requires Run(gs, acts) && n < |acts|
    requires EffectOf(gs[n], acts[n]).Emit? && EffectOf(gs[n], acts[n]).o.RestartConfirm?
    requires gs[n].link == Operational
    ensures gs[n].reader.RRestartConfirm?
    ensures exists i :: 0 <= i < n && Answering(gs, i, n, gs[n].reader.p) && SweptSince(gs, i, n, gs[n].reader.p)
  {
    ConfirmsFrom(gs, acts, n);
    RunKeepsLink(gs, acts, n);
    SweepingHistory(gs, acts, n, gs[n].reader.p);
  }

  lemma ConfirmsFrom(gs: seq<Gw>, acts: seq<Action>, n: nat)
    requires Run(gs, acts) && n < |acts|
    requires EffectOf(gs[n], acts[n]).Emit? && EffectOf(gs[n], acts[n]).o.RestartConfirm?
    ensures gs[n].reader.RRestartConfirm?
  {
    assert Next(gs[n], acts[n], gs[n + 1]);
  }

  // ---- exactness along a run ----

  // The one kind of step that can overwrite: a dialer adding the session for a kernel call.
  predicate Clashes(g: Gw, a: Action) {
    && a.DialGo? && a.id in g.dials && g.dials[a.id].DAdd?
    && AddCheck(a.s).None? && !NoClash(g.t, a.s)
  }

  lemma StepExactIff(g: Gw, a: Action, g': Gw)
    requires Exact(g.t) && Shares(g, EffectOf(g, a), g')
    ensures Exact(g'.t) <==> !Clashes(g, a)
  {
    OnlyDialersAdd(g, a);
    var e := EffectOf(g, a);
    if e.Do? {
      OpExactIff(g.t, e.op);
    }
  }

  /** The three indexes stay in bijection along a run exactly when no dialer adds a session
      whose keys another session holds at that moment. */
  lemma RunStaysExactIff(gs: seq<Gw>, acts: seq<Action>, n: nat)
    requires Run(gs, acts) && n < |gs|
    ensures (forall i :: 0 <= i <= n ==> Exact(gs[i].t)) <==>
            (forall i :: 0 <= i < n ==> !Clashes(gs[i], acts[i]))
  {
    var exact := seq(|gs|, i requires 0 <= i < |gs| => Exact(gs[i].t));
    var clash := seq(|acts|, i requires 0 <= i < |acts| => Clashes(gs[i], acts[i]));
    forall i | 0 <= i < |acts| && exact[i] ensures exact[i + 1] <==> !clash[i] {
      NthShares(gs, acts, i);
      StepExactIff(gs[i], acts[i], gs[i + 1]);
    }
    StaysIff(exact, clash, 0, n);
    assert forall i :: 0 <= i <= n ==> exact[i] == Exact(gs[i].t);
    assert forall i :: 0 <= i < n ==> clash[i] == Clashes(gs[i], acts[i]);
  }

  lemma NthShares(gs: seq<Gw>, acts: seq<Action>, i: nat)
    requires Run(gs, acts) && i < |acts|
    ensures Shares(gs[i], EffectOf(gs[i], acts[i]), gs[i + 1])
  {
    assert Next(gs[i], acts[i], gs[i + 1]);
    SharedFollows(gs[i], acts[i], gs[i + 1]);
  }

  lemma OnlyDialersAdd(g: Gw, a: Action)
    ensures var e := EffectOf(g, a);
            (e.Do? && e.op.OpAdd?) <==> (a.DialGo? && a.id in g.dials && g.dials[a.id].DAdd?)
    ensures var e := EffectOf(g, a); e.Do? && e.op.OpAdd? ==> e.op.s == a.s
  {
  }

  // ---- the race that remains ----

  // The operation makes the A-side LCI l lead to the session it creates.
  predicate HandsOut(t: Table, op: Op, l: nat) {
    match op
    case OpAdd(s) => AddCheck(s).None? && s.lciA == l
    case OpAllocate(_, _, _, s) => Created(t, op) && s.lciA == l
    case _ => false
  }

  lemma HandsOutOp(t: Table, op: Op, l: nat)
    requires Weak(t)
    ensures var r := GetA(Perform(t, op), l);
            if HandsOut(t, op, l) then r == Some(op.s) else r.None? || r == GetA(t, l)
  {
    match op {
      case OpRemove(s) => RemoveLookups(t, s);
      case _ =>
    }
  }

  // Step a hands l out to a new session.
  ghost predicate StepHandsOut(g: Gw, a: Action, l: nat) {
    var e := EffectOf(g, a); e.Do? && HandsOut(g.t, e.op, l)
  }

  predicate OwnOrFree(t: Table, s: Session) {
    GetA(t, s.lciA).None? || GetA(t, s.lciA) == Some(s)
  }

  lemma StepOwnIff(g: Gw, a: Action, g': Gw, s: Session)
    requires TableInv(g) && Shares(g, EffectOf(g, a), g') && Fresh(g, EffectOf(g, a))
    requires s in g.born && OwnOrFree(g.t, s)
    ensures OwnOrFree(g'.t, s) <==> !StepHandsOut(g, a, s.lciA)
  {
    var e := EffectOf(g, a);
    if e.Do? {
      HandsOutOp(g.t, e.op, s.lciA);
      if HandsOut(g.t, e.op, s.lciA) {
        assert e.op.s in Creates(g.t, e.op);
      }
    }
  }

  lemma NthFacts(gs: seq<Gw>, acts: seq<Action>, i: nat)
    requires Run(gs, acts) && i < |acts|
    ensures TableInv(gs[i]) && Shares(gs[i], EffectOf(gs[i], acts[i]), gs[i + 1]) && Fresh(gs[i], EffectOf(gs[i], acts[i]))
    ensures gs[i].born <= gs[i + 1].born
  {
    RunKeepsInv(gs, acts, i);
    NthShares(gs, acts, i);
    assert Next(gs[i], acts[i], gs[i + 1]);
    CreatedIsFresh(gs[i], acts[i], gs[i + 1]);
    EffectKeepsTable(gs[i], EffectOf(gs[i], acts[i]), gs[i + 1]);
  }

  lemma {:induction false} SetsGrow(born: seq<set<Session>>, m: nat, n: nat)
    requires m <= n < |born| && forall i :: 0 <= i < |born| - 1 ==> born[i] <= born[i + 1]
    ensures born[m] <= born[n]
  {
    if m < n {
      SetsGrow(born, m, n - 1);
      assert born[n - 1] <= born[n - 1 + 1];
    }
  }

  lemma BornStays(gs: seq<Gw>, acts: seq<Action>, m: nat, n: nat)
    requires Run(gs, acts) && m <= n < |gs|
    ensures gs[m].born <= gs[n].born
  {
    var born := seq(|gs|, i requires 0 <= i < |gs| => gs[i].born);
    forall i | 0 <= i < |born| - 1 ensures born[i] <= born[i + 1] {
      NthFacts(gs, acts, i);
    }
    SetsGrow(born, m, n);
  }

  // One step of the theorem below.
  lemma NthOwnIff(gs: seq<Gw>, acts: seq<Action>, s: Session, i: nat)
    requires Run(gs, acts) && i < |acts| && s in gs[i].born && OwnOrFree(gs[i].t, s)
    ensures OwnOrFree(gs[i + 1].t, s) <==> !StepHandsOut(gs[i], acts[i], s.lciA)
  {
    NthFacts(gs, acts, i);
    StepOwnIff(gs[i], acts[i], gs[i + 1], s);
  }

  lemma KernelBorn(gs: seq<Gw>, acts: seq<Action>, m: nat, l: nat)
    requires Run(gs, acts) && m < |gs| && GetA(gs[m].t, l).Some?
    ensures GetA(gs[m].t, l).value in gs[m].born
  {
    RunKeepsInv(gs, acts, m);
    KernelSideBorn(gs[m]);
  }

  /** When exactly a guard that passed at step m can be trusted later: the LCI leads to the
      session or to nobody all the way to step n if and only if no step in between hands that
      LCI out, by an accepted addition or by an allocation. */
  lemma GuardHoldsIff(gs: seq<Gw>, acts: seq<Action>, s: Session, m: nat, n: nat)
    requires Run(gs, acts) && m <= n < |gs| && GetA(gs[m].t, s.lciA) == Some(s)
    ensures (forall i :: m <= i <= n ==> OwnOrFree(gs[i].t, s)) <==>
            (forall i :: m <= i < n ==> !StepHandsOut(gs[i], acts[i], s.lciA))
  {
    var own := seq(|gs|, i requires 0 <= i < |gs| => OwnOrFree(gs[i].t, s));
    ghost var handed := seq(|acts|, i requires 0 <= i < |acts| => StepHandsOut(gs[i], acts[i], s.lciA));
    KernelBorn(gs, acts, m, s.lciA);
    forall i | m <= i < |acts| && own[i] ensures own[i + 1] <==> !handed[i] {
      BornStays(gs, acts, m, i);
      NthOwnIff(gs, acts, s, i);
    }
    StaysIff(own, handed, m, n);
    assert forall i :: m <= i <= n ==> own[i] == OwnOrFree(gs[i].t, s);
    assert forall i :: m <= i < n ==> handed[i] == StepHandsOut(gs[i], acts[i], s.lciA);
  }

  /** So a cleanup CLEAR written at step n, after its guard passed at m, hits nobody else as
      long as the LCI has not been handed out in between. */
  lemma CleanupClearHitsOwn(gs: seq<Gw>, acts: seq<Action>, s: Session, m: nat, n: nat)
    requires Run(gs, acts) && m <= n < |acts| && GetA(gs[m].t, s.lciA) == Some(s)
    requires var e := EffectOf(gs[n], acts[n]); e.Emit? && e.o.CleanupClear? && e.o.s == s
    requires forall i :: m <= i < n ==> !StepHandsOut(gs[i], acts[i], s.lciA)
    ensures OwnOrFree(gs[n].t, s) && GetLCI(EffectOf(gs[n], acts[n]).o.data) == s.lciA % 4096
  {
    GuardHoldsIff(gs, acts, s, m, n);
    ClearsNameTheirSession(gs, acts, n);
    NthNames(gs, acts, n);
  }

  lemma NthNames(gs: seq<Gw>, acts: seq<Action>, n: nat)
    requires Run(gs, acts) && n < |acts| && HoldsClear(gs[n].reader) && EffectOf(gs[n], acts[n]).Emit?
    ensures NamesOwn(EffectOf(gs[n], acts[n]).o)
  {
    assert Next(gs[n], acts[n], gs[n + 1]);
    StepNames(gs[n], acts[n], gs[n + 1]);
  }
}

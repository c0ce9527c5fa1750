/** One direction of the xot-server relay as the loop it is: read, skip other LCIs, hand on,
    return on a CLEAR or a read error. It sends what CallRelay says a direction hands on. */
module RelayLoop {
  import opened Wire
  import opened CallRelay

  datatype Arrival = Arrived(d: Bytes) | Failed(tooLong: Option<Bytes>)

  // A connection, with what reads on it will yield and what was sent on it.
  class Peer {
    var pending: seq<Arrival>
    var sent: seq<Bytes>

    constructor (pending: seq<Arrival>)
      ensures this.pending == pending && sent == []
    {
      this.pending, sent := pending, [];
    }

    // Reading past the last arrival fails, as at the end of the stream.
    method Receive() returns (a: Arrival)
      modifies this`pending
      ensures a == (if old(pending) == [] then Failed(None) else old(pending)[0])
      ensures pending == if old(pending) == [] then [] else old(pending)[1..]
    {
      if pending == [] {
        return Failed(None);
      }
      a := pending[0];
      pending := pending[1..];
    }

    method Send(d: Bytes)
      modifies this`sent
      ensures sent == old(sent) + [d]
    {
      sent := sent + [d];
    }
  }

  class QuitLatch {
    var quit: bool
    var closes: nat

    constructor ()
      ensures !quit && closes == 0
    {
      quit, closes := false, 0;
    }

    method CloseRelay()
      modifies this
      ensures quit && closes == old(closes) + if old(quit) then 0 else 1
    {
      if !quit {
        quit, closes := true, closes + 1;
      }
    }
  }

  // The packets read before the first read error.
  function Packets(script: seq<Arrival>): seq<In> {
    if script == [] || script[0].Failed? then []
    else [In(script[0].d, false, false)] + Packets(script[1..])
  }

  // The arrival on which the loop returns.
  function Ending(lci: Lci, script: seq<Arrival>): Arrival {
    if script == [] then Failed(None)
    else if script[0].Failed? || (GetLCI(script[0].d) == lci && IsClear(GetType(script[0].d))) then script[0]
    else Ending(lci, script[1..])
  }

  function Reply(ending: Arrival): seq<Bytes> {
    if ending.Failed? && ending.tooLong.Some? then
      var d := ending.tooLong.value;
      [ClearRequest(GetGFI(d), GetLCI(d), CAUSE_LOCAL_PROCEDURE_ERROR, DIAG_PACKET_TOO_LONG)]
    else []
  }

  // A read error or a CLEAR_CONFIRM ends the relay; a CLEAR_REQUEST only this direction.
  predicate EndsRelay(ending: Arrival) {
    ending.Failed? || GetType(ending.d) == CLEAR_CONFIRM
  }

  lemma RelayedFirst(lci: Lci, x: In, ins: seq<In>)
    ensures Relayed(lci, [x] + ins) ==
            (if GetLCI(x.d) != lci || x.swallowed then Relayed(lci, ins)
             else if IsClear(GetType(x.d)) then [x.d] else [x.d] + Relayed(lci, ins))
  {
    assert ([x] + ins)[1..] == ins;
  }

  /** The loop returns on a CLEAR exactly when it read one on its LCI before any error; that
      CLEAR is the last packet it handed on, and otherwise it handed on no CLEAR at all. */
  lemma {:induction false} EndingIsClear(lci: Lci, script: seq<Arrival>)
    ensures var out, ending := Relayed(lci, Packets(script)), Ending(lci, script);
            && (ending.Arrived? <==> exists d :: d in out && IsClear(GetType(d)))
            && (ending.Arrived? ==> out != [] && out[|out| - 1] == ending.d)
  {
    if script != [] && script[0].Arrived? {
      EndingIsClear(lci, script[1..]);
      RelayedFirst(lci, In(script[0].d, false, false), Packets(script[1..]));
    }
  }

  // What one read packet does to what is still to be handed on, by the branch it takes.
  lemma ScriptStep(lci: Lci, script: seq<Arrival>, out: seq<Bytes>)
    requires script != [] && script[0].Arrived?
    ensures var d, all, rest := script[0].d, Relayed(lci, Packets(script)), Relayed(lci, Packets(script[1..]));
            if GetLCI(d) != lci then out + all == out + rest && Ending(lci, script) == Ending(lci, script[1..])
            else if IsClear(GetType(d)) then all == [d] && Ending(lci, script) == script[0]
            else out + all == out + [d] + rest && Ending(lci, script) == Ending(lci, script[1..])
  {
    var d := script[0].d;
    RelayedFirst(lci, In(d, false, false), Packets(script[1..]));
    assert out + ([d] + Relayed(lci, Packets(script[1..]))) == out + [d] + Relayed(lci, Packets(script[1..]));
  }

  // The end on a read error.
  method Fail(tooLong: Option<Bytes>, replyTo: Peer, latch: QuitLatch)
    modifies replyTo`sent, latch
    ensures replyTo.sent == old(replyTo.sent) + Reply(Failed(tooLong))
    ensures latch.quit && latch.closes == old(latch.closes) + if old(latch.quit) then 0 else 1
  {
    if tooLong.Some? {
      var d := tooLong.value;
      replyTo.Send(ClearRequest(GetGFI(d), GetLCI(d), CAUSE_LOCAL_PROCEDURE_ERROR, DIAG_PACKET_TOO_LONG));
    } else {
      assert replyTo.sent + [] == replyTo.sent;
    }
    latch.CloseRelay();
  }

  method RelayDirection(lci: Lci, from: Peer, to: Peer, replyTo: Peer, latch: QuitLatch)
    requires from != to && (replyTo == from || replyTo == to)
    modifies from, to, latch
    ensures var script := old(from.pending);
            var relayed, reply := Relayed(lci, Packets(script)), Reply(Ending(lci, script));
            && to.sent == old(to.sent) + relayed + (if replyTo == to then reply else [])
            && from.sent == old(from.sent) + if replyTo == from then reply else []
    ensures latch.quit == (old(latch.quit) || EndsRelay(Ending(lci, old(from.pending))))
    ensures latch.closes == old(latch.closes) + if latch.quit && !old(latch.quit) then 1 else 0
    ensures to.pending == old(to.pending)
  {
    while true
      invariant to.sent + Relayed(lci, Packets(from.pending))
             == old(to.sent) + Relayed(lci, Packets(old(from.pending)))
      invariant Ending(lci, from.pending) == Ending(lci, old(from.pending))
      invariant from.sent == old(from.sent) && to.pending == old(to.pending)
      invariant latch.quit == old(latch.quit) && latch.closes == old(latch.closes)
      decreases |from.pending|
    {
      if from.pending != [] && from.pending[0].Arrived? {
        ScriptStep(lci, from.pending, to.sent);
      } else {
        assert to.sent + [] == to.sent;
      }
      var a := from.Receive();
      match a {
        case Failed(tooLong) =>
          Fail(tooLong, replyTo, latch);
          return;
        case Arrived(d) =>
          if GetLCI(d) != lci {
            continue;
          }
          if IsClear(GetType(d)) {
            to.Send(d);
            if GetType(d) == CLEAR_CONFIRM {
              latch.CloseRelay();
            }
            return;
          }
          to.Send(d);
      }
    }
  }
}

/**
  What every run of two joined endpoints guarantees.

  Each lemma speaks of an arbitrary sequence of events: any number of streams,
  Writes, CloseWrites, Aborts and shutdowns, interleaved step by step with both
  read loops.
 */
module MuxTheorems {
  import opened Basics
  import opened Wire
  import opened MuxStream
  import opened MuxSession
  import opened MuxInvariant
  import opened MuxWorld

  /** Everything the peer of `s` has put on the wire for stream `i`. */
  function SentTo(w: World, s: Side, i: nat): Tally {
    Tallied(w.Inbound(s), i)
  }

  /** What a Write that still holds the lock has framed so far. */
  function Framed(h: Holder): seq<byte> {
    if (h.Checking? || h.Sending?) && h.total <= |h.buf| then h.buf[..h.total] else []
  }

  /**
    In-order delivery: what has been read is a prefix of what the peer framed,
    and what the peer framed is its Writes one after the other, never mixed.
   */
  lemma Delivery(evs: seq<Event>, s: Side, i: nat)
    requires Reachable(evs) && i in Reached(evs).At(s).streams
    ensures var w := Reached(evs); w.At(s).streams[i].rd.read <= SentTo(w, s, i).data
    ensures var w := Reached(evs); var p := w.At(s.Other());
            SentTo(w, s, i).data
            == if i in p.streams then Flat(p.streams[i].wr.writes) + Framed(p.streams[i].wr.holder) else []
  {
    var w := Reached(evs);
    var e, p := w.At(s), w.At(s.Other());
    PairInv(evs, s);
    ReadPrefix(ViewOf(e, p.sent, i));
    TallyMonotone(p.sent, e.rcvd, i);
    TallyShape(p.sent, i);
    if i in p.streams {
      WritesFramed(ViewOf(p, e.sent, i));
    }
  }

  lemma ReadPrefix(v: View)
    requires VInv(v)
    ensures v.st.rd.read <= v.inn.data
  {
    var rd := v.st.rd;
    assert rd.read <= rd.read + rd.cur <= Accepted(rd);
  }

  lemma WritesFramed(v: View)
    requires VInv(v)
    ensures v.out.data == Flat(v.st.wr.writes) + Framed(v.st.wr.holder)
  {
  }

  /** A clean end is the whole stream: EOF comes after the peer's CLOSE and every byte before it. */
  lemma EofIsComplete(evs: seq<Event>, s: Side, i: nat)
    requires Reachable(evs) && i in Reached(evs).At(s).streams
    requires GotEof in Reached(evs).At(s).streams[i].rd.returned
    ensures var w := Reached(evs);
            w.At(s).streams[i].rd.read == SentTo(w, s, i).data && SentTo(w, s, i).closes == 1
  {
    var w := Reached(evs);
    var e, p := w.At(s), w.At(s.Other());
    PairInv(evs, s);
    PeerKeepsGrammar(e, p);
    EofMeans(ViewOf(e, p.sent, i));
    TallyMonotone(p.sent, e.rcvd, i);
    DataComplete(p.sent, e.rcvd, i);
  }

  lemma EofMeans(v: View)
    requires VInv(v) && GotEof in v.st.rd.returned
    ensures v.st.rd.read == v.inn.data && v.inn.closes > 0 && v.st.rd.readErr == Eof
  {
    assert Flat<byte>([]) == [];
  }

  /** What a stream and its session have reported. */
  ghost predicate Stable(e: Endpoint, e': Endpoint, i: nat)
    requires i in e.streams
  {
    && i in e'.streams
    && RdStable(e.streams[i].rd, e'.streams[i].rd)
    && (e.closed ==> e'.closed && e'.closeErr == e.closeErr)
  }

  predicate RdStable(rd: Receiver, rd': Receiver) {
    && rd.read <= rd'.read && rd.returned <= rd'.returned
    && (rd.readDone ==> rd'.readDone && rd'.readErr == rd.readErr)
    && (rd.aborted ==> rd'.aborted) && (rd.eofClosed ==> rd'.eofClosed)
  }

  lemma HandleStable(l: LoopPc, st: Stream, done: bool, c: Choice)
    ensures var h := HandleNext(l, st, done, c); h.Some? ==> RdStable(st.rd, h.value.st.rd)
  {
  }

  lemma CallStable(st: Stream, i: nat, c: Call, sendOk: bool)
    ensures var r := CallNext(st, i, c, sendOk); r.Some? ==> RdStable(st.rd, r.value.st.rd)
  {
  }

  /** New stream objects get new ids. */
  ghost predicate FreshIds(e: Endpoint) {
    && e.nextID !in e.streams
    && (e.loop.LGot? && e.loop.f.kind == Open ==> e.loop.f.id !in e.streams)
  }

  /** Replacing one stream by a stable successor. */
  lemma SetStable(e: Endpoint, e': Endpoint, j: nat, i: nat)
    requires i in e.streams && j in e.streams && j in e'.streams
    requires e'.streams == e.streams[j := e'.streams[j]] && RdStable(e.streams[j].rd, e'.streams[j].rd)
    requires e.closed ==> e'.closed && e'.closeErr == e.closeErr
    ensures Stable(e, e', i)
  {
  }

  lemma DispatchStable(e: Endpoint, i: nat)
    requires i in e.streams && FreshIds(e) && e.loop.LGot?
    ensures Stable(e, Dispatch(e, e.loop.f), i)
  {
    var f, e' := e.loop.f, Dispatch(e, e.loop.f);
    if f.kind == Data && f.id !in e.table && f.id in e.streams {
      SetStable(e, e', f.id, i);
    } else {
      assert f.id != i ==> i in e'.streams && e'.streams[i] == e.streams[i];
    }
  }

  lemma LoopStable(e: Endpoint, c: Choice, i: nat)
    requires i in e.streams && FreshIds(e)
    ensures var r := LoopNext(e, c); r.Some? ==> Stable(e, r.value, i)
  {
    var r := LoopNext(e, c);
    if e.loop.LGot? {
      DispatchStable(e, i);
    } else if r.Some? {
      HandleStable(e.loop, e.streams[e.loop.id], e.done, c);
      SetStable(e, r.value, e.loop.id, i);
    }
  }

  lemma ShutStable(e: Endpoint, inp: seq<Frame>, a: Action, i: nat)
    requires i in e.streams && (a.ShutMark? || a.ShutStep?)
    ensures var r := Exec(e, inp, a); r.Some? ==> Stable(e, r.value, i)
  {
    var r := Exec(e, inp, a);
    if r.Some? {
      if a.ShutMark? {
        SetStable(e, r.value, a.i, i);
      } else if e.shut.SEof? || e.shut.SSignal? {
        SetStable(e, r.value, e.shut.id, i);
      } else {
        assert r.value.streams == e.streams;
      }
    }
  }

  lemma CallStepStable(e: Endpoint, inp: seq<Frame>, j: nat, c: Call, ok: bool, i: nat)
    requires i in e.streams
    ensures var r := Exec(e, inp, StepCall(j, c, ok)); r.Some? ==> Stable(e, r.value, i)
  {
    var r := Exec(e, inp, StepCall(j, c, ok));
    if r.Some? {
      CallStable(e.streams[j], j, c, SendOk(e, ok));
      SetStable(e, r.value, j, i);
    }
  }

  lemma ReaderStable(e: Endpoint, inp: seq<Frame>, a: Action, i: nat)
    requires i in e.streams && (a.CopyOut? || a.StepRead?)
    ensures var r := Exec(e, inp, a); r.Some? ==> Stable(e, r.value, i)
  {
    var r := Exec(e, inp, a);
    if r.Some? {
      var rd := e.streams[a.i].rd;
      var r' := if a.CopyOut? then ReadCopy(rd, a.n) else ReadNext(rd, a.choice, e.done);
      assert RdStable(rd, r'.value);
      SetStable(e, r.value, a.i, i);
    }
  }

  lemma StepStable(e: Endpoint, inp: seq<Frame>, a: Action, i: nat)
    requires i in e.streams && FreshIds(e)
    ensures var r := Exec(e, inp, a); r.Some? ==> Stable(e, r.value, i)
  {
    match a
    case LoopStep(c) => LoopStable(e, c, i);
    case StepCall(j, c, ok) => CallStepStable(e, inp, j, c, ok, i);
    case CopyOut(_, _) => ReaderStable(e, inp, a, i);
    case StepRead(_, _) => ReaderStable(e, inp, a, i);
    case ShutMark(_) => ShutStable(e, inp, a, i);
    case ShutStep => ShutStable(e, inp, a, i);
    case _ =>
  }

  lemma IdsFresh(evs: seq<Event>, s: Side)
    requires Reachable(evs)
    ensures FreshIds(Reached(evs).At(s))
  {
    PairInv(evs, s);
  }

  /** What is reported once is never taken back, in any continuation of any run. */
  lemma {:induction false} Permanent(evs: seq<Event>, more: seq<Event>, s: Side, i: nat)
    requires Reachable(evs) && Reachable(evs + more) && i in Reached(evs).At(s).streams
    ensures Stable(Reached(evs).At(s), Reached(evs + more).At(s), i)
  {
    RunSplit(START, evs, more);
    if more == [] {
      assert evs + more == evs;
    } else {
      var init, last := more[..|more| - 1], more[|more| - 1];
      assert evs + more == (evs + init) + [last];
      assert (evs + more)[..|evs + more| - 1] == evs + init;
      Permanent(evs, init, s, i);
      if last.side == s {
        IdsFresh(evs + init, s);
        StepStable(Reached(evs + init).At(s), Reached(evs + init).Inbound(s), last.action, i);
      }
    }
  }

  /** After a clean end nothing more is read and nothing more is sent on that half. */
  lemma EofIsFinal(evs: seq<Event>, more: seq<Event>, s: Side, i: nat)
    requires Reachable(evs) && Reachable(evs + more) && i in Reached(evs).At(s).streams
    requires GotEof in Reached(evs).At(s).streams[i].rd.returned
    ensures var w, w' := Reached(evs), Reached(evs + more);
            && i in w'.At(s).streams
            && w'.At(s).streams[i].rd.returned == {GotEof}
            && w'.At(s).streams[i].rd.read == w.At(s).streams[i].rd.read
            && SentTo(w', s, i).data == SentTo(w, s, i).data
  {
    Permanent(evs, more, s, i);
    var w, w' := Reached(evs), Reached(evs + more);
    EofIsComplete(evs, s, i);
    EofIsComplete(evs + more, s, i);
    PairInv(evs + more, s);
    OneOutcome(ViewOf(w'.At(s), w'.Inbound(s), i));
    DataFinal(evs, more, s, i);
  }

  /** Once the peer has sent CLOSE, the stream's data never grows again. */
  lemma DataFinal(evs: seq<Event>, more: seq<Event>, s: Side, i: nat)
    requires Reachable(evs) && Reachable(evs + more) && SentTo(Reached(evs), s, i).closes > 0
    ensures SentTo(Reached(evs + more), s, i).data == SentTo(Reached(evs), s, i).data
  {
    var fs, fs' := Reached(evs).Inbound(s), Reached(evs + more).Inbound(s);
    Grows(evs, more, s.Other());
    assert fs'[..|fs|] == fs;
    PairInv(evs + more, s);
    PeerKeepsGrammar(Reached(evs + more).At(s), Reached(evs + more).At(s.Other()));
    DataComplete(fs', |fs|, i);
  }

  lemma OneOutcome(v: View)
    requires VInv(v) && GotEof in v.st.rd.returned
    ensures v.st.rd.returned == {GotEof}
  {
    forall o | o in v.st.rd.returned
      ensures o == GotEof
    {
      match o
      case GotEof =>
      case GotUnexpectedEof =>
      case GotReset =>
    }
  }

  lemma {:induction false} Grows(evs: seq<Event>, more: seq<Event>, s: Side)
    requires Reachable(evs) && Reachable(evs + more)
    ensures Reached(evs).At(s).sent <= Reached(evs + more).At(s).sent
  {
    RunSplit(START, evs, more);
    if more == [] {
      assert evs + more == evs;
    } else {
      var init, last := more[..|more| - 1], more[|more| - 1];
      assert (evs + more)[..|evs + more| - 1] == evs + init;
      Grows(evs, init, s);
      if last.side == s {
        ExecGrows(Reached(evs + init).At(s), Reached(evs + init).Inbound(s), last.action);
      }
    }
  }

  /**
    The wire grammar of every stream, at both ends: at most one CLOSE, at most
    one RESET, no DATA after CLOSE, and at most one DATA (and, the CLOSE being
    unique, one CLOSE) after a RESET.
   */
  lemma GrammarHolds(evs: seq<Event>, s: Side, i: nat)
    requires Reachable(evs)
    ensures WireGrammar(Reached(evs).At(s).sent, i)
  {
    var w := Reached(evs);
    PairInv(evs, s);
    PeerKeepsGrammar(w.At(s.Other()), w.At(s));
    TallyGrammar(w.At(s).sent, i);
  }

  /** A stream somebody holds can only leave the table once its read side is terminal. */
  lemma RegisteredUntilTerminal(evs: seq<Event>, s: Side, i: nat)
    requires Reachable(evs) && i in Reached(evs).At(s).streams && Reached(evs).At(s).streams[i].phase == Live
    ensures var e := Reached(evs).At(s); i in e.table || e.streams[i].rd.readDone
  {
    PairInv(evs, s);
    assert VInv(ViewOf(Reached(evs).At(s), Reached(evs).Inbound(s), i));
  }

  /** No spinning reader: when the session's done channel closes, every stream is already terminal. */
  lemma DoneMeansTerminal(evs: seq<Event>, s: Side, i: nat)
    requires Reachable(evs) && Reached(evs).At(s).done
    requires i in Reached(evs).At(s).streams && Reached(evs).At(s).streams[i].phase == Live
    ensures Reached(evs).At(s).streams[i].rd.readDone
  {
    PairInv(evs, s);
    assert VInv(ViewOf(Reached(evs).At(s), Reached(evs).Inbound(s), i));
  }

  /** Shutdown tells everybody: once done closes, whatever is still registered is over and has been aborted. */
  lemma DoneMeansAborted(evs: seq<Event>, s: Side, i: nat)
    requires Reachable(evs) && Reached(evs).At(s).done && i in Reached(evs).At(s).table
    ensures var e := Reached(evs).At(s);
            i in e.streams && e.streams[i].rd.aborted && (e.streams[i].phase == Live ==> e.streams[i].rd.readDone)
  {
    PairInv(evs, s);
    assert VInv(ViewOf(Reached(evs).At(s), Reached(evs).Inbound(s), i));
  }

  /**
    A reset tells everybody too, whichever side it came from: once no Abort and no
    inbound RESET is in the middle of it, the abort is signalled and the read side over.
   */
  lemma ResetMeansAborted(evs: seq<Event>, s: Side, i: nat)
    requires Reachable(evs) && i in Reached(evs).At(s).streams
    requires var e := Reached(evs).At(s);
             && e.streams[i].wr.reset && e.streams[i].wr.aborter == NoAborter
             && (e.loop.RMark? || e.loop.REof? || e.loop.RSignal? ==> e.loop.id != i)
    ensures var rd := Reached(evs).At(s).streams[i].rd; rd.aborted && rd.readDone
  {
    PairInv(evs, s);
    assert VInv(ViewOf(Reached(evs).At(s), Reached(evs).Inbound(s), i));
  }

  predicate Asleep(rd: Receiver, done: bool) {
    rd.reader == RSelect && rd.cur == [] && rd.chunks == [] && !rd.eofClosed && !done
  }

  /** The goroutine that set readDone closes eofCh with its next step. */
  function Waker(m: Marker, i: nat): Action {
    match m
    case ByAborter => StepCall(i, AbortStep, true)
    case ByShutdown => ShutStep
    case _ => LoopStep(TakeChunk)
  }

  /**
    No reader left asleep: a blocked reader's stream is either still registered,
    and on a closed session still on shutdown's list, or the goroutine that ended
    it can take a step now, and that step wakes the reader.
   */
  lemma NoReaderLeftAsleep(evs: seq<Event>, s: Side, i: nat)
    requires Reachable(evs)
    requires i in Reached(evs).At(s).streams && Reached(evs).At(s).streams[i].phase == Live
    requires Asleep(Reached(evs).At(s).streams[i].rd, Reached(evs).At(s).done)
    ensures var w := Reached(evs); var e := w.At(s);
            if e.streams[i].rd.readDone then
              var r := Exec(e, w.Inbound(s), Waker(e.streams[i].rd.marker, i));
              r.Some? && i in r.value.streams && r.value.streams[i].rd.eofClosed
            else i in e.table && (e.closed ==> !e.done && i in Remaining(e.shut))
  {
    var w := Reached(evs);
    PairInv(evs, s);
    WakerWorks(w.At(s), w.Inbound(s), i);
  }

  lemma WakerWorks(e: Endpoint, inp: seq<Frame>, i: nat)
    requires EpInv(e, inp) && i in e.streams && e.streams[i].phase == Live && !e.streams[i].rd.eofClosed
    ensures if e.streams[i].rd.readDone then
              var r := Exec(e, inp, Waker(e.streams[i].rd.marker, i));
              r.Some? && i in r.value.streams && r.value.streams[i].rd.eofClosed
            else i in e.table && (e.closed ==> !e.done && i in Remaining(e.shut))
  {
    if e.streams[i].rd.readDone {
      MarkerActs(ViewOf(e, inp, i));
      WakerSteps(e, inp, i);
    } else {
      assert VInv(ViewOf(e, inp, i));
    }
  }

  /** Whoever set readDone stands right before closing eofCh. */
  predicate AtEof(v: View) {
    match v.st.rd.marker
    case NoMarker => false
    case ByAborter => v.st.wr.aborter == AEof
    case ByLoop => v.loop.LMarkEof? || v.loop.REof?
    case ByShutdown => v.shutOn == OnEof
  }

  lemma MarkerActs(v: View)
    requires VInv(v) && v.st.rd.readDone && !v.st.rd.eofClosed
    ensures AtEof(v)
  {
  }

  lemma WakerSteps(e: Endpoint, inp: seq<Frame>, i: nat)
    requires i in e.streams && e.rcvd <= |inp| && e.streams[i].phase == Live && AtEof(ViewOf(e, inp, i))
    ensures var r := Exec(e, inp, Waker(e.streams[i].rd.marker, i));
            r.Some? && i in r.value.streams && r.value.streams[i].rd.eofClosed
  {
    match e.streams[i].rd.marker
    case ByAborter =>
      assert CallNext(e.streams[i], i, AbortStep, SendOk(e, true)) == AbortNext(e.streams[i], i);
    case ByShutdown =>
      assert Exec(e, inp, ShutStep) == ShutNext(e);
    case ByLoop =>
      assert Exec(e, inp, LoopStep(TakeChunk)) == LoopNext(e, TakeChunk) && e.loop.id == i;
    case NoMarker =>
  }

  /** No call in progress has won the right to close or abort the stream. */
  predicate Settled(wr: Sender) {
    wr.closer == NoCloser && wr.aborter == NoAborter
  }

  /** Both-closed means removed, whichever way CloseWrite and the inbound CLOSE interleave. */
  lemma BothClosedMeansRemoved(evs: seq<Event>, s: Side, i: nat)
    requires Reachable(evs) && i in Reached(evs).At(s).streams
    requires var e := Reached(evs).At(s);
             !e.closed && e.streams[i].wr.sentClose && e.streams[i].rd.readDone
    requires Settled(Reached(evs).At(s).streams[i].wr) && !LoopOn(Reached(evs).At(s).loop, i)
    ensures i !in Reached(evs).At(s).table
  {
    PairInv(evs, s);
    assert VInv(ViewOf(Reached(evs).At(s), Reached(evs).Inbound(s), i));
  }

  /** The recorded cause is the true one, and each result of Read reports it. */
  lemma CauseIsTrue(evs: seq<Event>, s: Side, i: nat)
    requires Reachable(evs) && i in Reached(evs).At(s).streams
    ensures var w := Reached(evs); var e := w.At(s); var rd := e.streams[i].rd;
            && (rd.readErr == Eof ==> SentTo(w, s, i).closes == 1)
            && (rd.readErr == SessionClosed ==> e.closed)
            && (rd.readErr == StreamReset ==> e.streams[i].wr.reset)
            && (rd.aborted ==> e.streams[i].wr.reset || e.closed)
            && (forall o :: o in rd.returned ==> rd.readDone && o == Surface(rd.readErr))
  {
    var w := Reached(evs);
    var e, p := w.At(s), w.At(s.Other());
    PairInv(evs, s);
    PeerKeepsGrammar(e, p);
    TallyMonotone(p.sent, e.rcvd, i);
    OutcomesMatch(ViewOf(e, p.sent, i));
  }

  lemma OutcomesMatch(v: View)
    requires VInv(v)
    ensures forall o :: o in v.st.rd.returned ==> v.st.rd.readDone && o == Surface(v.st.rd.readErr)
  {
    forall o | o in v.st.rd.returned
      ensures v.st.rd.readDone && o == Surface(v.st.rd.readErr)
    {
      match o
      case GotEof =>
      case GotUnexpectedEof =>
      case GotReset =>
    }
  }
}

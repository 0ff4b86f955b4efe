/**
  No leaked streams: frames in flight always drain, and once a stream is closed
  on both sides or aborted on one, draining them takes it out of both tables.
 */
module MuxDrain {
  import opened Basics
  import opened Wire
  import opened MuxStream
  import opened MuxSession
  import opened MuxInvariant
  import opened MuxWorld
  import opened MuxTheorems

  /** The session is up: nobody has closed it and its socket still takes writes. */
  predicate Up(e: Endpoint) {
    !e.closed && !e.broken
  }

  /** The endpoint has taken and handled every frame its peer has sent. */
  predicate Delivered(e: Endpoint, inp: seq<Frame>) {
    e.rcvd == |inp| && e.loop == LIdle
  }

  /** This side has closed its half; the CLOSE itself may still be to write. */
  predicate HalfClosed(e: Endpoint, i: nat) {
    i in e.streams && e.streams[i].wr.sentClose
  }

  predicate WasAborted(e: Endpoint, i: nat) {
    i in e.streams && e.streams[i].wr.reset
  }

  predicate NoCallOn(e: Endpoint, i: nat) {
    i in e.streams ==> Settled(e.streams[i].wr)
  }

  /** No call has still to write CLOSE or RESET, and no Abort is at work. */
  predicate SaidAll(wr: Sender) {
    !OwesFrame(wr) && wr.aborter == NoAborter
  }

  /** No call has still to unregister the stream; a CloseWrite may have its CLOSE still to write. */
  predicate OwesNoRemoval(wr: Sender) {
    !CloserOwesRemoval(wr.closer) && wr.aborter == NoAborter
  }

  /** Closed by both sides, every call over. */
  predicate BothClosed(e: Endpoint, p: Endpoint, i: nat) {
    NoCallOn(e, i) && NoCallOn(p, i) && HalfClosed(e, i) && HalfClosed(p, i)
  }

  /** Aborted by `e`, which has said so. */
  predicate Aborted(e: Endpoint, p: Endpoint, i: nat) {
    && WasAborted(e, i) && SaidAll(e.streams[i].wr)
    && (i in p.streams ==> OwesNoRemoval(p.streams[i].wr))
  }

  /** Both sessions are up and the stream is over: closed by both or aborted by `e`. */
  predicate Over(e: Endpoint, p: Endpoint, i: nat) {
    Up(e) && Up(p) && (BothClosed(e, p, i) || Aborted(e, p, i))
  }

  /** What a stream whose calls have said everything has told its peer. */
  lemma Told(v: View)
    requires VInv(v) && SaidAll(v.st.wr) && !v.closed && !v.broken
    ensures v.st.wr.sentClose ==> v.out.closes > 0 || v.out.resets > 0
    ensures v.st.wr.reset ==> v.out.resets > 0 || v.inn.resets > 0 || (v.st.wr.sentClose && v.inn.closes > 0)
  {
  }

  /** What a peer has told was so. */
  lemma Meant(u: View)
    requires VInv(u)
    ensures u.out.closes > 0 ==> u.st.wr.sentClose
    ensures u.out.resets > 0 ==> u.st.wr.reset
  {
  }

  /** A stream with nothing in flight and no removal owed leaves the table when both sides are done with it. */
  lemma Leaves(v: View)
    requires VInv(v) && v.st.wr.aborter == NoAborter && !v.closed && v.loop == LIdle
    requires || v.st.wr.reset || v.inn.resets > 0
             || (v.st.wr.sentClose && (v.inn.closes > 0 || v.inn.resets > 0) && OwesNoRemoval(v.st.wr))
    ensures !v.inTable
  {
  }

  lemma AllTaken(e: Endpoint, inp: seq<Frame>, i: nat)
    requires Delivered(e, inp) && i in e.streams
    ensures ViewOf(e, inp, i).inn == Tallied(inp, i) && ViewOf(e, inp, i).loop == LIdle
  {
    assert inp[..e.rcvd] == inp;
  }

  lemma PairDrained(e: Endpoint, p: Endpoint, i: nat)
    requires EpInv(e, p.sent) && EpInv(p, e.sent) && Over(e, p, i)
    requires Delivered(e, p.sent) && Delivered(p, e.sent)
    ensures i !in e.table && i !in p.table
  {
    AllTaken(e, p.sent, i);
    if i in p.streams {
      AllTaken(p, e.sent, i);
      PairLeaves(ViewOf(e, p.sent, i), ViewOf(p, e.sent, i));
    } else {
      Leaves(ViewOf(e, p.sent, i));
    }
  }

  lemma PairLeaves(v: View, u: View)
    requires VInv(v) && VInv(u) && v.inn == u.out && u.inn == v.out
    requires v.loop == LIdle && u.loop == LIdle && !v.closed && !u.closed && !v.broken && !u.broken
    requires || (Settled(v.st.wr) && Settled(u.st.wr) && v.st.wr.sentClose && u.st.wr.sentClose)
             || (v.st.wr.reset && SaidAll(v.st.wr) && OwesNoRemoval(u.st.wr))
    ensures !v.inTable && !u.inTable
  {
    Told(v);
    Meant(u);
    if !v.st.wr.reset {
      Told(u);
    }
    Leaves(v);
    Leaves(u);
  }

  /**
    Drain, for every run: with both sessions up and every frame delivered, a
    stream half-closed on both sides, with those calls over, or aborted on either,
    with that call over and none on the other side that has still to unregister
    it, is in neither table.
   */
  lemma NoLeakedStream(evs: seq<Event>, s: Side, i: nat)
    requires Reachable(evs)
    requires var w := Reached(evs); var e, p := w.At(s), w.At(s.Other());
             Over(e, p, i) && Delivered(e, p.sent) && Delivered(p, e.sent)
    ensures i !in Reached(evs).server.table && i !in Reached(evs).client.table
  {
    PairInv(evs, s);
    PairDrained(Reached(evs).At(s), Reached(evs).At(s.Other()), i);
  }

  /** Steps left in the handling of the frame in hand. */
  function Rank(l: LoopPc): nat {
    match l
    case LIdle => 0
    case LDead => 0
    case LGot(_) => 7
    case LCheck(_, _) => 2
    case LPush(_, _) => 1
    case LMark(_) => 4
    case LMarkEof(_) => 3
    case LBoth(_) => 2
    case LDrop(_) => 1
    case RFlag(_) => 5
    case RMark(_) => 4
    case REof(_) => 3
    case RSignal(_) => 2
    case RRemove(_) => 1
  }

  /** Frames in flight, as a termination measure of delivery. */
  function InFlight(e: Endpoint, inp: seq<Frame>): nat
    requires e.rcvd <= |inp|
  {
    8 * (|inp| - e.rcvd) + Rank(e.loop)
  }

  predicate IsLoop(a: Action) {
    a.LoopRead? || a.LoopStep?
  }

  predicate IsDelivery(a: Action) {
    IsLoop(a) || a.CopyOut? || a.StepRead?
  }

  /** Delivering a frame sends nothing and strictly shortens what is in flight. */
  lemma DeliveryShrinks(e: Endpoint, inp: seq<Frame>, a: Action)
    requires e.rcvd <= |inp| && IsLoop(a)
    ensures var r := Exec(e, inp, a);
            r.Some? ==> r.value.sent == e.sent && r.value.rcvd <= |inp| && InFlight(r.value, inp) < InFlight(e, inp)
  {
    if a.LoopStep? {
      var r := LoopNext(e, a.choice);
      if e.loop.LGot? {
        DispatchRanks(e, e.loop.f);
      } else if r.Some? {
        HandleRanks(e.loop, e.streams[e.loop.id], e.done, a.choice);
      }
    }
  }

  lemma DispatchRanks(e: Endpoint, f: Frame)
    ensures var e' := Dispatch(e, f); Rank(e'.loop) < 7 && e'.sent == e.sent && e'.rcvd == e.rcvd
  {
    match f.kind
    case Open =>
    case Data => assert Lose(e, f.id).loop == LIdle && Lose(e, f.id).sent == e.sent && Lose(e, f.id).rcvd == e.rcvd;
    case _ => assert Dispatch(e, f).loop == LIdle || Dispatch(e, f).loop == LMark(f.id) || Dispatch(e, f).loop == RFlag(f.id);
  }

  lemma HandleRanks(l: LoopPc, st: Stream, done: bool, c: Choice)
    ensures var h := HandleNext(l, st, done, c); h.Some? ==> Rank(h.value.loop) < Rank(l)
  {
  }

  /** Stream `i` has been reset and no Abort is at work on it. */
  predicate ResetDone(e: Endpoint, i: nat) {
    i in e.streams && e.streams[i].wr.reset && e.streams[i].wr.aborter == NoAborter
  }

  predicate NoNewReset(e: Endpoint, e': Endpoint, i: nat) {
    ResetDone(e', i) && Tallied(e'.sent, i).resets == Tallied(e.sent, i).resets
  }

  lemma CallSendsNoReset(e: Endpoint, i: nat, j: nat, c: Call, ok: bool)
    requires ResetDone(e, i) && j in e.streams
    ensures var r := CallNext(e.streams[j], j, c, SendOk(e, ok)); r.Some? ==> NoNewReset(e, Apply(e, j, r.value, ok), i)
  {
    var r := CallNext(e.streams[j], j, c, SendOk(e, ok));
    if r.Some? {
      CallOnReset(e.streams[j], j, c, SendOk(e, ok));
      if r.value.emit.Some? {
        TallyAppend(e.sent, r.value.emit.value, i);
      }
    }
  }

  /** A call on a reset stream writes no RESET; a call writes only its own stream's frames. */
  lemma CallOnReset(st: Stream, j: nat, c: Call, sendOk: bool)
    ensures var r := CallNext(st, j, c, sendOk);
            r.Some? ==>
              && (r.value.emit.Some? ==> r.value.emit.value.id == j)
              && (st.wr.reset && st.wr.aborter == NoAborter ==>
                    && (r.value.emit.Some? ==> r.value.emit.value.kind != Reset)
                    && r.value.st.wr.reset && r.value.st.wr.aborter == NoAborter)
  {
  }

  lemma LoopSendsNoReset(e: Endpoint, c: Choice, i: nat)
    requires ResetDone(e, i) && FreshIds(e)
    ensures var r := LoopNext(e, c); r.Some? ==> NoNewReset(e, r.value, i)
  {
    var r := LoopNext(e, c);
    if e.loop.LGot? {
      assert r.value == Dispatch(e, e.loop.f);
    } else if r.Some? {
      var j := e.loop.id;
      var h := HandleNext(e.loop, e.streams[j], e.done, c).value;
      assert h.st.wr == e.streams[j].wr || h.st.wr == e.streams[j].wr.(reset := true);
    }
  }

  /** Replacing the read half of a stream leaves every sender alone. */
  lemma SetRdNoReset(e: Endpoint, e': Endpoint, j: nat, i: nat)
    requires ResetDone(e, i) && j in e.streams && e'.sent == e.sent
    requires j in e'.streams && e'.streams == e.streams[j := e'.streams[j]] && e'.streams[j].wr == e.streams[j].wr
    ensures NoNewReset(e, e', i)
  {
  }

  /** Steps that write nothing and leave every sender alone. */
  lemma QuietSendsNoReset(e: Endpoint, inp: seq<Frame>, a: Action, i: nat)
    requires ResetDone(e, i) && (a.ShutMark? || a.ShutStep? || a.CopyOut? || a.StepRead?)
    ensures var r := Exec(e, inp, a); r.Some? ==> NoNewReset(e, r.value, i)
  {
    var r := Exec(e, inp, a);
    if r.Some? {
      if !a.ShutStep? {
        SetRdNoReset(e, r.value, a.i, i);
      } else if e.shut.SEof? || e.shut.SSignal? {
        SetRdNoReset(e, r.value, e.shut.id, i);
      } else {
        assert r.value.streams == e.streams && r.value.sent == e.sent;
      }
    }
  }

  lemma EmitNoReset(e: Endpoint, f: Frame, ok: bool, i: nat)
    requires ResetDone(e, i) && f.kind != Reset
    ensures NoNewReset(e, Emit(e, f, ok), i)
  {
    TallyAppend(e.sent, f, i);
  }

  /** Frames written outside a stream's own calls: OPEN, PING and PONG. */
  lemma OthersSendNoReset(e: Endpoint, inp: seq<Frame>, a: Action, i: nat)
    requires ResetDone(e, i) && (a.SendOpen? || a.SendPing? || a.SendPong?)
    ensures var r := Exec(e, inp, a); r.Some? ==> NoNewReset(e, r.value, i)
  {
    match a
    case SendOpen(j, meta, ok) => EmitNoReset(e, Frame(Open, j, meta), ok, i);
    case SendPing(stamp, ok) => EmitNoReset(e, Frame(Ping, 0, stamp), ok, i);
    case SendPong(ok) => if e.pongs.Some? { EmitNoReset(e.(pongs := None), Frame(Pong, 0, e.pongs.value), ok, i); }
  }

  lemma StepSendsNoReset(e: Endpoint, inp: seq<Frame>, a: Action, i: nat)
    requires ResetDone(e, i) && FreshIds(e)
    ensures var r := Exec(e, inp, a); r.Some? ==> NoNewReset(e, r.value, i)
  {
    match a
    case StepCall(j, c, ok) => if j in e.streams { CallSendsNoReset(e, i, j, c, ok); }
    case LoopStep(c) => LoopSendsNoReset(e, c, i);
    case SendOpen(_, _, _) => OthersSendNoReset(e, inp, a, i);
    case SendPing(_, _) => OthersSendNoReset(e, inp, a, i);
    case SendPong(_) => OthersSendNoReset(e, inp, a, i);
    case ShutMark(_) => QuietSendsNoReset(e, inp, a, i);
    case ShutStep => QuietSendsNoReset(e, inp, a, i);
    case CopyOut(_, _) => QuietSendsNoReset(e, inp, a, i);
    case StepRead(_, _) => QuietSendsNoReset(e, inp, a, i);
    case _ =>
  }

  /** A RESET is never answered by a RESET, nor repeated, in any continuation. */
  lemma {:induction false} ResetIsNotAnswered(evs: seq<Event>, more: seq<Event>, s: Side, i: nat)
    requires Reachable(evs) && Reachable(evs + more) && ResetDone(Reached(evs).At(s), i)
    ensures NoNewReset(Reached(evs).At(s), Reached(evs + more).At(s), i)
  {
    RunSplit(START, evs, more);
    if more == [] {
      assert evs + more == evs;
    } else {
      var init, last := more[..|more| - 1], more[|more| - 1];
      assert (evs + more)[..|evs + more| - 1] == evs + init;
      ResetIsNotAnswered(evs, init, s, i);
      if last.side == s {
        IdsFresh(evs + init, s);
        StepSendsNoReset(Reached(evs + init).At(s), Reached(evs + init).Inbound(s), last.action, i);
      }
    }
  }

  predicate SenderKept(wr: Sender, wr': Sender) {
    wr' == wr || wr' == wr.(reset := true)
  }

  /** Deliveries change nothing a sender has said or decided, except to record an inbound RESET. */
  ghost predicate Passive(e: Endpoint, e': Endpoint) {
    && e'.sent == e.sent && e'.closed == e.closed && e'.broken == e.broken && e'.loop != LDead
    && (forall i :: i in e.streams ==> i in e'.streams && SenderKept(e.streams[i].wr, e'.streams[i].wr))
    && (forall i :: i in e'.streams && i !in e.streams ==> Settled(e'.streams[i].wr))
  }

  lemma PassiveTrans(e: Endpoint, e1: Endpoint, e2: Endpoint)
    requires Passive(e, e1) && Passive(e1, e2)
    ensures Passive(e, e2)
  {
  }

  lemma HandlePassive(l: LoopPc, st: Stream, done: bool, c: Choice)
    ensures var h := HandleNext(l, st, done, c);
            h.Some? ==> SenderKept(st.wr, h.value.st.wr) && h.value.loop != LDead
  {
  }

  /** One stream changes or appears, its sender kept or settled. */
  lemma SetPassive(e: Endpoint, e': Endpoint, i: nat, st: Stream)
    requires e'.sent == e.sent && e'.closed == e.closed && e'.broken == e.broken && e'.loop != LDead
    requires e'.streams == e.streams[i := st]
    requires if i in e.streams then SenderKept(e.streams[i].wr, st.wr) else Settled(st.wr)
    ensures Passive(e, e')
  {
  }

  lemma DispatchPassive(e: Endpoint)
    requires FreshIds(e) && e.loop.LGot?
    ensures Passive(e, Dispatch(e, e.loop.f))
  {
    var f, e' := e.loop.f, Dispatch(e, e.loop.f);
    if f.kind == Open && !e.closed {
      SetPassive(e, e', f.id, NewStream(Live));
    } else if f.kind == Data && f.id !in e.table && f.id in e.streams {
      SetPassive(e, e', f.id, e'.streams[f.id]);
    } else {
      assert e'.streams == e.streams;
    }
  }

  lemma LoopPassive(e: Endpoint, inp: seq<Frame>, a: Action)
    requires IsLoop(a) && FreshIds(e) && e.loop != LDead
    ensures var r := Exec(e, inp, a); r.Some? ==> Passive(e, r.value)
  {
    if a.LoopStep? {
      var r := LoopNext(e, a.choice);
      if e.loop.LGot? {
        DispatchPassive(e);
        assert r.value == Dispatch(e, e.loop.f);
      } else if r.Some? {
        HandlePassive(e.loop, e.streams[e.loop.id], e.done, a.choice);
      }
    }
  }

  lemma ReaderPassive(e: Endpoint, inp: seq<Frame>, a: Action)
    requires (a.CopyOut? || a.StepRead?) && e.loop != LDead
    ensures var r := Exec(e, inp, a);
            r.Some? ==> Passive(e, r.value) && r.value.loop == e.loop && r.value.rcvd == e.rcvd
  {
  }

  /** The read loop waits for the stream's reader to make room. */
  predicate Blocked(e: Endpoint) {
    && e.loop.LPush? && e.loop.id in e.streams
    && |e.streams[e.loop.id].rd.chunks| >= BUFFER_SLOTS && !e.streams[e.loop.id].rd.eofClosed && !e.done
  }

  /** The read loop's next step, when it has one. */
  function LoopAction(e: Endpoint): Action {
    if e.loop == LIdle then LoopRead
    else if e.loop.LPush? && e.loop.id in e.streams && |e.streams[e.loop.id].rd.chunks| >= BUFFER_SLOTS then
      LoopStep(if e.streams[e.loop.id].rd.eofClosed then TakeEof else TakeDone)
    else LoopStep(TakeChunk)
  }

  /** Every frame not yet taken is one the read loop accepts. */
  ghost predicate InFlightFits(e: Endpoint, inp: seq<Frame>) {
    forall k :: e.rcvd <= k < |inp| ==> Fits(inp[k])
  }

  lemma LoopMoves(e: Endpoint, inp: seq<Frame>)
    requires Base(e, inp) && e.loop != LDead && InFlight(e, inp) > 0 && !Blocked(e) && InFlightFits(e, inp)
    ensures Exec(e, inp, LoopAction(e)).Some?
  {
    if e.loop != LIdle && !e.loop.LGot? {
      assert LoopOn(e.loop, e.loop.id);
    }
  }

  /** The reader's next step towards taking a chunk. */
  function ReaderAction(rd: Receiver, i: nat): Action {
    if rd.cur != [] then CopyOut(i, |rd.cur|) else StepRead(i, TakeChunk)
  }

  function ReaderDistance(rd: Receiver): nat {
    if rd.cur != [] then 3 else if rd.reader == RStart then 2 else 1
  }

  /** How far the blocked stream's reader is from making room; 0 when the loop can move. */
  function Wait(e: Endpoint): nat {
    if Blocked(e) then ReaderDistance(e.streams[e.loop.id].rd) else 0
  }

  lemma ReaderMoves(e: Endpoint, inp: seq<Frame>)
    requires EpInv(e, inp) && Blocked(e)
    ensures var r := Exec(e, inp, ReaderAction(e.streams[e.loop.id].rd, e.loop.id));
            r.Some? && r.value.loop == e.loop && r.value.rcvd == e.rcvd && Wait(r.value) < Wait(e)
  {
    BlockedReader(ViewOf(e, inp, e.loop.id));
    ReaderSteps(e, inp);
  }

  lemma ReaderSteps(e: Endpoint, inp: seq<Frame>)
    requires Blocked(e) && e.streams[e.loop.id].phase == Live && |e.streams[e.loop.id].rd.chunks| <= BUFFER_SLOTS
    requires e.streams[e.loop.id].rd.cur != [] ==> e.streams[e.loop.id].rd.reader == RStart
    ensures var r := Exec(e, inp, ReaderAction(e.streams[e.loop.id].rd, e.loop.id));
            r.Some? && r.value.loop == e.loop && r.value.rcvd == e.rcvd && Wait(r.value) < Wait(e)
  {
    ReaderNears(e.streams[e.loop.id].rd, e.loop.id, e.done);
  }

  lemma BlockedReader(v: View)
    requires VInv(v) && v.loop.LPush?
    ensures v.st.phase == Live && (v.st.rd.cur != [] ==> v.st.rd.reader == RStart)
    ensures |v.st.rd.chunks| <= BUFFER_SLOTS
  {
  }

  lemma ReaderNears(rd: Receiver, i: nat, done: bool)
    requires |rd.chunks| >= BUFFER_SLOTS && (rd.cur != [] ==> rd.reader == RStart)
    ensures rd.cur != [] ==> ReadCopy(rd, |rd.cur|).Some? && ReaderDistance(ReadCopy(rd, |rd.cur|).value) == 2
    ensures rd.cur == [] && rd.reader == RStart ==>
              var r := ReadNext(rd, TakeChunk, done); r.Some? && ReaderDistance(r.value) == 1
    ensures rd.cur == [] && rd.reader != RStart ==> ReadNext(rd, TakeChunk, done) == Some(Take(rd))
  {
  }

  /** The next delivery step, by the read loop or, when it is blocked, by the reader. */
  function NextDelivery(e: Endpoint): Action {
    if Blocked(e) then ReaderAction(e.streams[e.loop.id].rd, e.loop.id) else LoopAction(e)
  }

  lemma DeliveryMoves(e: Endpoint, inp: seq<Frame>)
    requires EpInv(e, inp) && e.loop != LDead && InFlight(e, inp) > 0 && InFlightFits(e, inp)
    ensures IsDelivery(NextDelivery(e))
    ensures var r := Exec(e, inp, NextDelivery(e));
            && r.Some? && Passive(e, r.value) && e.rcvd <= r.value.rcvd <= |inp|
            && (InFlight(r.value, inp) < InFlight(e, inp)
                || (InFlight(r.value, inp) == InFlight(e, inp) && Wait(r.value) < Wait(e)))
  {
    if Blocked(e) {
      ReaderMoves(e, inp);
      ReaderPassive(e, inp, NextDelivery(e));
    } else {
      LoopMoves(e, inp);
      LoopPassive(e, inp, NextDelivery(e));
      DeliveryShrinks(e, inp, NextDelivery(e));
    }
  }

  lemma DeliveryStep(w: World, s: Side)
    requires Inv(w) && w.At(s).loop != LDead && InFlight(w.At(s), w.Inbound(s)) > 0
    requires InFlightFits(w.At(s), w.Inbound(s))
    ensures var ev := Event(s, NextDelivery(w.At(s)));
            && IsDelivery(ev.action) && Next(w, ev).Some?
            && var w1 := Next(w, ev).value;
               && Inv(w1) && w1.At(s.Other()) == w.At(s.Other()) && Passive(w.At(s), w1.At(s))
               && w1.At(s).rcvd <= |w.Inbound(s)| && InFlightFits(w1.At(s), w.Inbound(s))
               && (InFlight(w1.At(s), w.Inbound(s)) < InFlight(w.At(s), w.Inbound(s))
                   || (InFlight(w1.At(s), w.Inbound(s)) == InFlight(w.At(s), w.Inbound(s)) && Wait(w1.At(s)) < Wait(w.At(s))))
  {
    DeliveryMoves(w.At(s), w.Inbound(s));
    NextKeeps(w, Event(s, NextDelivery(w.At(s))));
  }

  /** With a reader at work, delivery steps of one endpoint alone bring in every frame in flight. */
  lemma {:induction false} CanDeliver(w: World, s: Side) returns (more: seq<Event>)
    requires Inv(w) && w.At(s).loop != LDead && InFlightFits(w.At(s), w.Inbound(s))
    ensures Delivers(w, s, more)
    decreases InFlight(w.At(s), w.Inbound(s)), Wait(w.At(s))
  {
    var e, inp := w.At(s), w.Inbound(s);
    if InFlight(e, inp) == 0 {
      more := [];
    } else {
      var ev := Event(s, NextDelivery(e));
      DeliveryStep(w, s);
      var w1 := Next(w, ev).value;
      var rest := CanDeliver(w1, s);
      more := [ev] + rest;
      DeliverThen(w, s, ev, rest);
    }
  }

  /** What one endpoint's deliveries `more` bring about from `w`. */
  ghost predicate Delivers(w: World, s: Side, more: seq<Event>) {
    && (forall k :: 0 <= k < |more| ==> more[k].side == s && IsDelivery(more[k].action))
    && Run(w, more).Some?
    && var w' := Run(w, more).value;
       && Delivered(w'.At(s), w'.Inbound(s))
       && w'.At(s.Other()) == w.At(s.Other()) && Passive(w.At(s), w'.At(s))
  }

  lemma DeliverThen(w: World, s: Side, ev: Event, rest: seq<Event>)
    requires ev.side == s && IsDelivery(ev.action) && Next(w, ev).Some?
    requires var w1 := Next(w, ev).value;
             w1.At(s.Other()) == w.At(s.Other()) && Passive(w.At(s), w1.At(s)) && Delivers(w1, s, rest)
    ensures Delivers(w, s, [ev] + rest)
  {
    RunFirst(w, ev, rest);
    var w1 := Next(w, ev).value;
    PassiveTrans(w.At(s), w1.At(s), Run(w1, rest).value.At(s));
  }

  lemma RunFirst(w: World, ev: Event, rest: seq<Event>)
    requires Next(w, ev).Some?
    ensures Run(w, [ev] + rest) == Run(Next(w, ev).value, rest)
  {
    assert [ev][..0] == [];
    assert Run(w, [ev]) == Next(w, ev);
    RunSplit(w, [ev], rest);
  }

  /** Both directions drained, one after the other: deliveries never put a frame on the wire. */
  lemma BothDeliver(w: World, s: Side) returns (more: seq<Event>)
    requires Inv(w) && w.At(s).loop != LDead && w.At(s.Other()).loop != LDead
    requires InFlightFits(w.At(s), w.Inbound(s)) && InFlightFits(w.At(s.Other()), w.Inbound(s.Other()))
    ensures forall k :: 0 <= k < |more| ==> IsDelivery(more[k].action)
    ensures Run(w, more).Some?
    ensures var w', t := Run(w, more).value, s.Other();
            && Delivered(w'.At(s), w'.Inbound(s)) && Delivered(w'.At(t), w'.Inbound(t))
            && Passive(w.At(s), w'.At(s)) && Passive(w.At(t), w'.At(t))
  {
    var m1 := CanDeliver(w, s);
    RunKeeps(w, m1);
    var m2 := CanDeliver(Run(w, m1).value, s.Other());
    more := m1 + m2;
    RunSplit(w, m1, m2);
  }

  /**
    Drain as reachability: from any state of any run with both sessions up, in
    which a stream is over, delivering what is in flight, and nothing else, leads
    to a state where it is in neither table.
   */
  lemma DrainReaches(evs: seq<Event>, s: Side, i: nat) returns (more: seq<Event>)
    requires Reachable(evs)
    requires var w := Reached(evs); var e, p := w.At(s), w.At(s.Other());
             Over(e, p, i) && e.loop != LDead && p.loop != LDead && InFlightFits(e, p.sent) && InFlightFits(p, e.sent)
    ensures forall k :: 0 <= k < |more| ==> IsDelivery(more[k].action)
    ensures Reachable(evs + more)
    ensures i !in Reached(evs + more).server.table && i !in Reached(evs + more).client.table
  {
    var w, t := Reached(evs), s.Other();
    Always(evs);
    more := BothDeliver(w, s);
    RunSplit(START, evs, more);
    var w' := Reached(evs + more);
    OverLasts(w.At(s), w'.At(s), w.At(t), w'.At(t), i);
    NoLeakedStream(evs + more, s, i);
  }

  lemma OverLasts(e: Endpoint, e': Endpoint, p: Endpoint, p': Endpoint, i: nat)
    requires Over(e, p, i) && Passive(e, e') && Passive(p, p')
    ensures Over(e', p', i)
  {
  }

  // ---- Frames too long to take ----

  /** Whatever the read loop has taken fitted. */
  ghost predicate TakenFits(e: Endpoint, inp: seq<Frame>) {
    e.rcvd <= |inp| && forall k :: 0 <= k < e.rcvd ==> Fits(inp[k])
  }

  lemma ExecTakes(e: Endpoint, inp: seq<Frame>, a: Action)
    requires TakenFits(e, inp)
    ensures var r := Exec(e, inp, a); r.Some? ==> TakenFits(r.value, inp) && e.rcvd <= r.value.rcvd
  {
    if a.LoopStep? {
      LoopTakesNothing(e, a.choice);
    }
  }

  lemma LoopTakesNothing(e: Endpoint, c: Choice)
    ensures var r := LoopNext(e, c); r.Some? ==> r.value.rcvd == e.rcvd
  {
  }

  lemma {:induction false} AllTakenFit(evs: seq<Event>, s: Side)
    requires Reachable(evs)
    ensures TakenFits(Reached(evs).At(s), Reached(evs).Inbound(s))
  {
    if evs != [] {
      var init, last := evs[..|evs| - 1], evs[|evs| - 1];
      var w := Reached(init);
      AllTakenFit(init, s);
      if last.side == s {
        ExecTakes(w.At(s), w.Inbound(s), last.action);
      } else {
        ExecGrows(w.At(s.Other()), w.At(s).sent, last.action);
      }
    }
  }

  /** A frame in flight that does not fit is never taken, so nothing ever drains past it: InFlightFits is needed. */
  lemma OversizeIsNeverTaken(evs: seq<Event>, more: seq<Event>, s: Side, k: nat)
    requires Reachable(evs) && Reachable(evs + more)
    requires k < |Reached(evs).Inbound(s)| && !Fits(Reached(evs).Inbound(s)[k])
    ensures var w := Reached(evs + more);
            w.At(s).rcvd <= k && !Delivered(w.At(s), w.Inbound(s))
  {
    Grows(evs, more, s.Other());
    AllTakenFit(evs + more, s);
  }
}

/** Every step of a call on a stream keeps that stream's invariant. */
module MuxSteps {
  import opened Basics
  import opened Wire
  import opened MuxStream
  import opened MuxSession
  import opened MuxInvariant

  /** A stream step's effect on the stream's view. */
  function ViewStep(v: View, i: nat, eff: Effect, sendOk: bool): View {
    v.(st := eff.st,
       out := if eff.emit.Some? && sendOk then Count(v.out, eff.emit.value, i) else v.out,
       broken := v.broken || (eff.emit.Some? && !v.closed && !sendOk),
       inTable := v.inTable && !eff.remove)
  }

  predicate CanSend(v: View, sendOk: bool) {
    sendOk ==> !v.closed && !v.broken
  }

  lemma WriteEntryKeeps(v: View, i: nat, c: Call, sendOk: bool)
    requires VInv(v) && v.st.phase == Live && CanSend(v, sendOk)
    requires c.WriteEnter? || c.WriteLock?
    ensures var r := CallNext(v.st, i, c, sendOk); r.Some? ==> VInv(ViewStep(v, i, r.value, sendOk))
  {
  }

  lemma WriteCheckKeeps(v: View, i: nat, c: Call, sendOk: bool)
    requires VInv(v) && v.st.phase == Live && CanSend(v, sendOk)
    requires c.WriteStep? && !v.st.wr.holder.Sending?
    ensures var r := CallNext(v.st, i, c, sendOk); r.Some? ==> VInv(ViewStep(v, i, r.value, sendOk))
  {
    if v.st.wr.holder.Checking? {
      FlatPush(v.st.wr.writes, v.st.wr.holder.buf[..v.st.wr.holder.total]);
    }
  }

  lemma WriteFailKeeps(v: View, i: nat, c: Call, sendOk: bool)
    requires VInv(v) && v.st.phase == Live && CanSend(v, sendOk)
    requires c.WriteStep? && v.st.wr.holder.Sending? && (!sendOk || v.st.wr.holder.total == |v.st.wr.holder.buf|)
    ensures var r := CallNext(v.st, i, c, sendOk); r.Some? ==> VInv(ViewStep(v, i, r.value, sendOk))
  {
    var buf, total := v.st.wr.holder.buf, v.st.wr.holder.total;
    FlatPush(v.st.wr.writes, buf[..total]);
    var r := CallNext(v.st, i, c, sendOk);
    assert r.Some? && r.value.st == v.st.(wr := FinishWrite(v.st.wr, buf, total)) && !r.value.remove;
    assert r.value.emit.None? || !sendOk;
  }

  lemma WriteSendKeeps(v: View, i: nat, c: Call, sendOk: bool)
    requires VInv(v) && v.st.phase == Live && CanSend(v, sendOk)
    requires c.WriteStep? && v.st.wr.holder.Sending? && sendOk && v.st.wr.holder.total < |v.st.wr.holder.buf|
    ensures var r := CallNext(v.st, i, c, sendOk); r.Some? ==> VInv(ViewStep(v, i, r.value, sendOk))
  {
    var r := CallNext(v.st, i, c, sendOk);
    if r.Some? {
      var w := ViewStep(v, i, r.value, sendOk);
      WriteSendContent(v, i, c);
      assert ReadInv(w) && DeliveryInv(w) && TableInv(w) && PhaseInv(w);
    }
  }

  /** Framing `buf[total..total + n]` extends the data by exactly those bytes. */
  lemma ChunkExtends(ws: seq<seq<byte>>, buf: seq<byte>, total: nat, n: nat)
    requires total + n <= |buf|
    ensures Flat(ws) + buf[..total] + buf[total..total + n] == Flat(ws) + buf[..total + n]
    ensures Flat(ws + [buf[..total + n]]) == Flat(ws) + buf[..total + n]
  {
    assert buf[..total + n] == buf[..total] + buf[total..total + n];
    FlatPush(ws, buf[..total + n]);
  }

  lemma WriteSendContent(v: View, i: nat, c: Call)
    requires WriteInv(v)
    requires c.WriteStep? && v.st.wr.holder.Sending? && v.st.wr.holder.total < |v.st.wr.holder.buf|
    ensures var r := CallNext(v.st, i, c, true); r.Some? ==> WriteInv(ViewStep(v, i, r.value, true))
  {
    var buf, total := v.st.wr.holder.buf, v.st.wr.holder.total;
    var n := NextChunk(buf, total);
    ChunkExtends(v.st.wr.writes, buf, total, n);
    var w := ViewStep(v, i, CallNext(v.st, i, c, true).value, true);
    assert w.out.data == v.out.data + buf[total..total + n];
    assert w.out.data == Flat(v.st.wr.writes) + buf[..total + n];
  }

  lemma CallKeeps(v: View, i: nat, c: Call, sendOk: bool)
    requires VInv(v) && v.st.phase == Live && CanSend(v, sendOk)
    ensures var r := CallNext(v.st, i, c, sendOk); r.Some? ==> VInv(ViewStep(v, i, r.value, sendOk))
  {
    match c
    case WriteEnter(_) => WriteEntryKeeps(v, i, c, sendOk);
    case WriteLock(_) => WriteEntryKeeps(v, i, c, sendOk);
    case WriteStep =>
      if !v.st.wr.holder.Sending? {
        WriteCheckKeeps(v, i, c, sendOk);
      } else if sendOk && v.st.wr.holder.total < |v.st.wr.holder.buf| {
        WriteSendKeeps(v, i, c, sendOk);
      } else {
        WriteFailKeeps(v, i, c, sendOk);
      }
    case CloseEnter => CloseEnterKeeps(v, i, c, sendOk);
    case CloseStep =>
      if v.st.wr.closer.CSend? { CloseSendKeeps(v, i, c, sendOk); } else { CloseStepKeeps(v, i, c, sendOk); }
    case AbortEnter => AbortEnterKeeps(v, i, c, sendOk);
    case AbortStep =>
      match v.st.wr.aborter
      case ASend => AbortSendKeeps(v, i, c, sendOk);
      case AMark => AbortMarkKeeps(v, i, c, sendOk);
      case AEof => AbortMarkKeeps(v, i, c, sendOk);
      case _ => AbortEndKeeps(v, i, c, sendOk);
  }

  lemma CloseEnterKeeps(v: View, i: nat, c: Call, sendOk: bool)
    requires VInv(v) && v.st.phase == Live && CanSend(v, sendOk)
    requires c.CloseEnter?
    ensures var r := CallNext(v.st, i, c, sendOk); r.Some? ==> VInv(ViewStep(v, i, r.value, sendOk))
  {
  }

  lemma CloseSendKeeps(v: View, i: nat, c: Call, sendOk: bool)
    requires VInv(v) && v.st.phase == Live && CanSend(v, sendOk)
    requires c.CloseStep? && v.st.wr.closer.CSend?
    ensures var r := CallNext(v.st, i, c, sendOk); r.Some? ==> VInv(ViewStep(v, i, r.value, sendOk))
  {
  }

  lemma CloseStepKeeps(v: View, i: nat, c: Call, sendOk: bool)
    requires VInv(v) && v.st.phase == Live && CanSend(v, sendOk)
    requires c.CloseStep? && !v.st.wr.closer.CSend?
    ensures var r := CallNext(v.st, i, c, sendOk); r.Some? ==> VInv(ViewStep(v, i, r.value, sendOk))
  {
  }

  lemma AbortEnterKeeps(v: View, i: nat, c: Call, sendOk: bool)
    requires VInv(v) && v.st.phase == Live && CanSend(v, sendOk)
    requires c.AbortEnter?
    ensures var r := CallNext(v.st, i, c, sendOk); r.Some? ==> VInv(ViewStep(v, i, r.value, sendOk))
  {
  }

  lemma AbortSendKeeps(v: View, i: nat, c: Call, sendOk: bool)
    requires VInv(v) && v.st.phase == Live && CanSend(v, sendOk)
    requires c.AbortStep? && v.st.wr.aborter == ASend
    ensures var r := CallNext(v.st, i, c, sendOk); r.Some? ==> VInv(ViewStep(v, i, r.value, sendOk))
  {
  }

  lemma AbortMarkKeeps(v: View, i: nat, c: Call, sendOk: bool)
    requires VInv(v) && v.st.phase == Live && CanSend(v, sendOk)
    requires c.AbortStep? && (v.st.wr.aborter == AMark || v.st.wr.aborter == AEof)
    ensures var r := CallNext(v.st, i, c, sendOk); r.Some? ==> VInv(ViewStep(v, i, r.value, sendOk))
  {
  }

  lemma AbortEndKeeps(v: View, i: nat, c: Call, sendOk: bool)
    requires VInv(v) && v.st.phase == Live && CanSend(v, sendOk)
    requires c.AbortStep? && v.st.wr.aborter != ASend && v.st.wr.aborter != AMark && v.st.wr.aborter != AEof
    ensures var r := CallNext(v.st, i, c, sendOk); r.Some? ==> VInv(ViewStep(v, i, r.value, sendOk))
  {
  }

  /** A step of the read loop inside the handling of a frame, on the stream's view. */
  function ViewHandle(v: View, h: Handled): View {
    v.(st := h.st, loop := h.loop, inTable := v.inTable && !h.remove)
  }

  lemma DataCheckKeeps(v: View, c: Choice)
    requires VInv(v) && v.loop.LCheck?
    ensures var h := HandleNext(v.loop, v.st, v.done, c); h.Some? ==> VInv(ViewHandle(v, h.value))
  {
  }

  lemma AcceptedPush(rd: Receiver, p: seq<byte>)
    ensures Accepted(rd.(chunks := rd.chunks + [p])) == Accepted(rd) + p
  {
    FlatPush(rd.chunks, p);
    assert (rd.read + rd.cur + Flat(rd.chunks)) + p == rd.read + rd.cur + (Flat(rd.chunks) + p);
  }

  lemma DataPushKeeps(v: View, c: Choice)
    requires VInv(v) && v.loop.LPush?
    ensures var h := HandleNext(v.loop, v.st, v.done, c); h.Some? ==> VInv(ViewHandle(v, h.value))
  {
    if c == TakeChunk {
      AcceptedPush(v.st.rd, v.loop.p);
    }
  }

  lemma RemoteMarkKeeps(v: View, c: Choice)
    requires VInv(v) && (v.loop.LMark? || v.loop.LMarkEof?)
    ensures var h := HandleNext(v.loop, v.st, v.done, c); h.Some? ==> VInv(ViewHandle(v, h.value))
  {
  }

  lemma RemoteBothKeeps(v: View, c: Choice)
    requires VInv(v) && (v.loop.LBoth? || v.loop.LDrop?)
    ensures var h := HandleNext(v.loop, v.st, v.done, c); h.Some? ==> VInv(ViewHandle(v, h.value))
  {
  }

  lemma RemoteFlagKeeps(v: View, c: Choice)
    requires VInv(v) && v.loop.RFlag?
    ensures var h := HandleNext(v.loop, v.st, v.done, c); h.Some? ==> VInv(ViewHandle(v, h.value))
  {
  }

  lemma RemoteResetKeeps(v: View, c: Choice)
    requires VInv(v) && (v.loop.RMark? || v.loop.REof?)
    ensures var h := HandleNext(v.loop, v.st, v.done, c); h.Some? ==> VInv(ViewHandle(v, h.value))
  {
  }

  lemma ResetEndKeeps(v: View, c: Choice)
    requires VInv(v) && (v.loop.RSignal? || v.loop.RRemove?)
    ensures var h := HandleNext(v.loop, v.st, v.done, c); h.Some? ==> VInv(ViewHandle(v, h.value))
  {
  }

  lemma CopyOutKeeps(v: View, n: nat)
    requires VInv(v)
    ensures var r := ReadCopy(v.st.rd, n); r.Some? ==> VInv(v.(st := v.st.(rd := r.value)))
  {
    var rd := v.st.rd;
    if n <= |rd.cur| {
      assert (rd.read + rd.cur[..n]) + rd.cur[n..] == rd.read + rd.cur;
    }
  }

  lemma TakeKeeps(v: View)
    requires VInv(v) && v.st.rd.cur == [] && |v.st.rd.chunks| > 0
    ensures VInv(v.(st := v.st.(rd := Take(v.st.rd))))
  {
    var rd := v.st.rd;
    assert Flat(rd.chunks) == rd.chunks[0] + Flat(rd.chunks[1..]);
    assert rd.read + rd.cur + Flat(rd.chunks) == rd.read + rd.chunks[0] + Flat(rd.chunks[1..]);
  }

  /** Read returns its terminal result: nothing is buffered any more. */
  lemma ReturnKeeps(v: View)
    requires VInv(v) && v.st.rd.cur == [] && v.st.rd.chunks == [] && v.st.rd.reader.RDrain?
    ensures VInv(v.(st := v.st.(rd := v.st.rd.(reader := RStart,
                                               returned := v.st.rd.returned + {Surface(v.st.rd.reader.err)}))))
  {
  }

  lemma MoveReaderKeeps(v: View, pc: ReaderPc)
    requires VInv(v) && v.st.rd.cur == [] && (pc.RDrain? ==> v.st.rd.readDone && pc.err == v.st.rd.readErr)
    ensures VInv(v.(st := v.st.(rd := v.st.rd.(reader := pc))))
  {
  }

  /** The four things a Read with an empty `cur` can do. */
  lemma ReadShape(rd: Receiver, c: Choice, done: bool)
    ensures var r := ReadNext(rd, c, done);
            r.Some? ==>
              && rd.cur == []
              && (|| (rd.reader == RStart && r.value == rd.(reader := if rd.readDone then RDrain(rd.readErr) else RSelect))
                  || (|rd.chunks| > 0 && r.value == Take(rd))
                  || (rd.reader.RDrain? && rd.chunks == []
                      && r.value == rd.(reader := RStart, returned := rd.returned + {Surface(rd.reader.err)}))
                  || r.value == rd.(reader := RStart))
  {
  }

  /** Replacing the read half by any of the four results. */
  lemma ReadResultKeeps(v: View, rd': Receiver)
    requires VInv(v) && v.st.rd.cur == []
    requires var rd := v.st.rd;
             || (rd.reader == RStart && rd' == rd.(reader := if rd.readDone then RDrain(rd.readErr) else RSelect))
             || (|rd.chunks| > 0 && rd' == Take(rd))
             || (rd.reader.RDrain? && rd.chunks == []
                 && rd' == rd.(reader := RStart, returned := rd.returned + {Surface(rd.reader.err)}))
             || rd' == rd.(reader := RStart)
    ensures VInv(v.(st := v.st.(rd := rd')))
  {
    var rd := v.st.rd;
    if |rd.chunks| > 0 && rd' == Take(rd) {
      TakeKeeps(v);
    } else if rd' == rd.(reader := RStart) {
      MoveReaderKeeps(v, RStart);
    } else if rd.reader == RStart {
      MoveReaderKeeps(v, rd'.reader);
    } else {
      ReturnKeeps(v);
    }
  }

  lemma ReadKeeps(v: View, c: Choice)
    requires VInv(v)
    ensures var r := ReadNext(v.st.rd, c, v.done); r.Some? ==> VInv(v.(st := v.st.(rd := r.value)))
  {
    var r := ReadNext(v.st.rd, c, v.done);
    if r.Some? {
      ReadShape(v.st.rd, c, v.done);
      ReadResultKeeps(v, r.value);
    }
  }

  lemma HandleKeeps(v: View, c: Choice)
    requires VInv(v) && !v.loop.LGot?
    ensures var h := HandleNext(v.loop, v.st, v.done, c); h.Some? ==> VInv(ViewHandle(v, h.value))
  {
    match v.loop
    case LCheck(_, _) => DataCheckKeeps(v, c);
    case LPush(_, _) => DataPushKeeps(v, c);
    case LMark(_) => RemoteMarkKeeps(v, c);
    case LMarkEof(_) => RemoteMarkKeeps(v, c);
    case LBoth(_) => RemoteBothKeeps(v, c);
    case LDrop(_) => RemoteBothKeeps(v, c);
    case RFlag(_) => RemoteFlagKeeps(v, c);
    case RMark(_) => RemoteResetKeeps(v, c);
    case REof(_) => RemoteResetKeeps(v, c);
    case RSignal(_) => ResetEndKeeps(v, c);
    case RRemove(_) => ResetEndKeeps(v, c);
    case _ =>
  }

  /** Session-wide changes. */
  lemma BrokenKeeps(v: View)
    requires VInv(v)
    ensures VInv(v.(broken := true))
  {
  }

  lemma ShutBeginKeeps(v: View)
    requires VInv(v) && !v.closed && v.shutOn == NotOn
    ensures VInv(v.(closed := true, shutPend := v.inTable))
  {
  }

  lemma DoneKeeps(v: View)
    requires VInv(v) && v.closed && !v.shutPend
    ensures VInv(v.(done := true))
  {
  }

  lemma ShutMarkKeeps(v: View)
    requires VInv(v) && v.shutPend && v.shutOn == NotOn
    ensures VInv(v.(st := v.st.(rd := MarkReadDone(v.st.rd, SessionClosed, ByShutdown)), shutPend := false,
                    shutOn := if v.st.rd.readDone then OnSignal else OnEof))
  {
  }

  lemma ShutEofKeeps(v: View)
    requires VInv(v) && v.shutOn == OnEof
    ensures VInv(v.(st := v.st.(rd := CloseEof(v.st.rd)), shutOn := OnSignal))
  {
  }

  lemma ShutSignalKeeps(v: View)
    requires VInv(v) && v.shutOn == OnSignal
    ensures VInv(v.(st := v.st.(rd := v.st.rd.(aborted := true)), shutOn := NotOn))
  {
  }

  /** The read loop takes a frame of this stream off the wire. */
  lemma LoopReadKeeps(v: View, f: Frame, i: nat)
    requires VInv(v) && v.loop == LIdle && f.OnStream() && f.id == i && f.kind != Open
    requires Count(v.inn, f, i).late == 0
    requires v.st.phase == Live
    ensures VInv(v.(inn := Count(v.inn, f, i), loop := LGot(f)))
  {
    assert Accepted(v.st.rd) + [] == Accepted(v.st.rd);
  }

  /** Where readLoop's switch sends a frame of a registered stream. */
  function Route(f: Frame, i: nat): LoopPc {
    match f.kind
    case Close => LMark(i)
    case Reset => RFlag(i)
    case _ => LCheck(i, f.payload)
  }

  lemma RouteKeeps(v: View, i: nat)
    requires VInv(v) && v.inTable && v.loop.LGot? && v.loop.f.OnStream() && v.loop.f.kind != Open
    ensures VInv(v.(loop := Route(v.loop.f, i)))
  {
  }

  /** A frame of a stream that has left the table is dropped; its read side is terminal. */
  lemma DropKeeps(v: View)
    requires VInv(v) && !v.inTable && v.loop.LGot? && v.loop.f.OnStream() && v.loop.f.kind != Open
    ensures VInv(v.(loop := LIdle, st := if v.loop.f.kind == Data then v.st.(rd := v.st.rd.(lost := true)) else v.st))
  {
  }
}

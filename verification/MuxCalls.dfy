/**
  What one call or one frame brings about in the interleaved model, step by step:
  opening a stream, taking an OPEN, answering a PING.
 */
module MuxCalls {
  import opened Basics
  import opened Wire
  import opened MuxStream
  import opened MuxSession
  import opened MuxWorld

  /** OpenStream on an open session: the stream is handed out, registered, and its OPEN is on the wire. */
  lemma OpenSucceeds(e: Endpoint, inp: seq<Frame>, meta: seq<byte>)
    requires !e.closed && !e.broken && e.nextID !in e.streams
    ensures var i := e.nextID;
            var e1 := Exec(e, inp, AllocOpen);
            && e1.Some?
            && var e2 := Exec(e1.value, inp, InsertOpen(i));
               && e2.Some?
               && var e3 := Exec(e2.value, inp, SendOpen(i, meta, true));
                  && e3.Some? && e3.value.sent == e.sent + [Frame(Open, i, meta)]
                  && e3.value.streams == e.streams[i := NewStream(Live)] && e3.value.table == e.table + {i}
                  && e3.value.nextID == e.nextID + 2
  {
    var i := e.nextID;
    Replaced(e.streams, i, NewStream(Allocated), NewStream(Inserted));
    Replaced(e.streams, i, NewStream(Inserted), NewStream(Live));
  }

  lemma Replaced(m: map<nat, Stream>, i: nat, a: Stream, b: Stream)
    ensures m[i := a][i := b] == m[i := b]
  {
  }

  /** A failed write takes the stream out again; on a closed session it never gets in. */
  lemma OpenFails(e: Endpoint, inp: seq<Frame>, i: nat, meta: seq<byte>)
    requires i in e.streams
    ensures e.streams[i].phase == Inserted ==>
              var e1 := Exec(e, inp, SendOpen(i, meta, false));
              && e1.Some? && e1.value.sent == e.sent
              && var e2 := Exec(e1.value, inp, FailOpen(i));
                 e2.Some? && i !in e2.value.table && e2.value.streams[i].phase == Refused
    ensures e.streams[i].phase == Allocated && e.closed ==>
              var e1 := Exec(e, inp, InsertOpen(i));
              e1.Some? && e1.value.table == e.table && e1.value.streams[i].phase == Refused
  {
  }

  /** An OPEN taken by an open session makes a live, registered stream; a closed one makes none. */
  lemma OpenIsTaken(e: Endpoint, inp: seq<Frame>, c: Choice)
    requires e.loop.LGot? && e.loop.f.kind == Open
    ensures var r := Exec(e, inp, LoopStep(c)); var i := e.loop.f.id;
            && r.Some? && r.value.loop == LIdle
            && if e.closed then r.value.streams == e.streams && r.value.table == e.table
               else r.value.streams == e.streams[i := NewStream(Live)] && r.value.table == e.table + {i}
  {
  }

  /** A PING in hand is answered with its own bytes, if none is waiting to be answered. */
  lemma PingIsAnswered(e: Endpoint, inp: seq<Frame>, c: Choice)
    requires e.loop.LGot? && e.loop.f.kind == Ping && e.pongs == None && !e.closed && !e.broken
    ensures var r := Exec(e, inp, LoopStep(c));
            && r.Some? && r.value.loop == LIdle
            && var p := Exec(r.value, inp, SendPong(true));
               p.Some? && p.value.sent == e.sent + [Frame(Pong, 0, e.loop.f.payload)] && p.value.pongs == None
  {
  }

  /** A reader blocked on a stream that is over wakes and returns its end, once nothing is buffered. */
  lemma AwakeReaderReturns(e: Endpoint, inp: seq<Frame>, i: nat)
    requires i in e.streams && e.streams[i].phase == Live
    requires var rd := e.streams[i].rd;
             rd.reader == RSelect && rd.cur == [] && rd.chunks == [] && rd.readDone && rd.eofClosed
    ensures var rd := e.streams[i].rd;
            var e1 := Exec(e, inp, StepRead(i, TakeEof));
            && e1.Some?
            && var e2 := Exec(e1.value, inp, StepRead(i, TakeChunk));
               && e2.Some?
               && var e3 := Exec(e2.value, inp, StepRead(i, TakeChunk));
                  && e3.Some? && i in e3.value.streams
                  && e3.value.streams[i].rd.returned == rd.returned + {Surface(rd.readErr)}
                  && e3.value.streams[i].rd.reader == RStart
  {
    EndTaken(e.streams[i].rd, e.done);
  }

  /** The three branches of the call: woken by eofCh, the cause remembered, the cause returned. */
  lemma EndTaken(rd: Receiver, d: bool)
    requires rd.reader == RSelect && rd.cur == [] && rd.chunks == [] && rd.readDone && rd.eofClosed
    ensures ReadNext(rd, TakeEof, d) == Some(rd.(reader := RStart))
    ensures ReadNext(rd.(reader := RStart), TakeChunk, d) == Some(rd.(reader := RDrain(rd.readErr)))
    ensures ReadNext(rd.(reader := RDrain(rd.readErr)), TakeChunk, d)
         == Some(rd.(reader := RStart, returned := rd.returned + {Surface(rd.readErr)}))
  {
  }

  /** io.EOF for the peer's CLOSE, io.ErrUnexpectedEOF for the session's end, ErrStreamReset for a reset. */
  lemma EndsAre()
    ensures Surface(Eof) == GotEof && Surface(SessionClosed) == GotUnexpectedEof && Surface(StreamReset) == GotReset
  {
  }

  // ---- Nothing else is ever answered ----

  /** One of the first `n` frames is a PING with this payload. */
  ghost predicate Pinged(inp: seq<Frame>, n: nat, p: seq<byte>)
    requires n <= |inp|
  {
    exists j :: 0 <= j < n && inp[j].kind == Ping && inp[j].payload == p
  }

  ghost predicate Echoes(e: Endpoint, inp: seq<Frame>) {
    && e.rcvd <= |inp|
    && (forall k :: 0 <= k < |e.sent| && e.sent[k].kind == Pong ==> Pinged(inp, e.rcvd, e.sent[k].payload))
    && (e.pongs.Some? ==> Pinged(inp, e.rcvd, e.pongs.value))
    && (e.loop.LGot? ==> e.rcvd > 0 && e.loop.f == inp[e.rcvd - 1])
  }

  lemma MorePinged(inp: seq<Frame>, n: nat, m: nat)
    requires n <= m <= |inp|
    ensures forall p :: Pinged(inp, n, p) ==> Pinged(inp, m, p)
  {
    forall p | Pinged(inp, n, p) ensures Pinged(inp, m, p) {
      var j :| 0 <= j < n && inp[j].kind == Ping && inp[j].payload == p;
    }
  }

  lemma CallNeverPongs(st: Stream, i: nat, c: Call, sendOk: bool)
    ensures var r := CallNext(st, i, c, sendOk); r.Some? && r.value.emit.Some? ==> r.value.emit.value.kind != Pong
  {
  }

  lemma HandleTakesNone(l: LoopPc, st: Stream, done: bool, c: Choice)
    ensures var h := HandleNext(l, st, done, c); h.Some? ==> !h.value.loop.LGot?
  {
  }

  lemma LoopEchoes(e: Endpoint, inp: seq<Frame>, c: Choice)
    requires Echoes(e, inp)
    ensures var r := LoopNext(e, c); r.Some? ==> Echoes(r.value, inp)
  {
    if e.loop.LGot? {
      DispatchEchoes(e, inp);
    } else if LoopNext(e, c).Some? {
      HandleTakesNone(e.loop, e.streams[e.loop.id], e.done, c);
    }
  }

  lemma DispatchLeaves(e: Endpoint, f: Frame)
    ensures var e' := Dispatch(e, f);
            && e'.sent == e.sent && e'.rcvd == e.rcvd && !e'.loop.LGot?
            && (e'.pongs == e.pongs || (f.kind == Ping && e'.pongs == Some(f.payload)))
  {
    match f.kind
    case Data => LoseLeaves(e, f.id);
    case _ =>
  }

  lemma LoseLeaves(e: Endpoint, i: nat)
    ensures var e' := Lose(e, i);
            e'.sent == e.sent && e'.rcvd == e.rcvd && e'.loop == LIdle && e'.pongs == e.pongs
  {
  }

  lemma DispatchEchoes(e: Endpoint, inp: seq<Frame>)
    requires Echoes(e, inp) && e.loop.LGot?
    ensures Echoes(Dispatch(e, e.loop.f), inp)
  {
    var f := e.loop.f;
    DispatchLeaves(e, f);
    assert f.kind == Ping ==> inp[e.rcvd - 1].kind == Ping && Pinged(inp, e.rcvd, f.payload);
  }

  lemma EmitEchoes(e: Endpoint, inp: seq<Frame>, f: Frame, ok: bool)
    requires Echoes(e, inp) && (f.kind == Pong ==> Pinged(inp, e.rcvd, f.payload))
    ensures Echoes(Emit(e, f, ok), inp)
  {
  }

  lemma CallEchoes(e: Endpoint, inp: seq<Frame>, i: nat, c: Call, ok: bool)
    requires Echoes(e, inp) && i in e.streams
    ensures var r := CallNext(e.streams[i], i, c, SendOk(e, ok)); r.Some? ==> Echoes(Apply(e, i, r.value, ok), inp)
  {
    var r := CallNext(e.streams[i], i, c, SendOk(e, ok));
    CallNeverPongs(e.streams[i], i, c, SendOk(e, ok));
    if r.Some? && r.value.emit.Some? {
      EmitEchoes(e, inp, r.value.emit.value, ok);
    }
  }

  lemma SendEchoes(e: Endpoint, inp: seq<Frame>, a: Action)
    requires Echoes(e, inp) && (a.SendOpen? || a.SendPing? || a.SendPong?)
    ensures var r := Exec(e, inp, a); r.Some? ==> Echoes(r.value, inp)
  {
    if a.SendOpen? {
      EmitEchoes(e, inp, Frame(Open, a.i, a.meta), a.ok);
    } else if a.SendPing? {
      EmitEchoes(e, inp, Frame(Ping, 0, a.stamp), a.ok);
    } else if e.pongs.Some? {
      EmitEchoes(e.(pongs := None), inp, Frame(Pong, 0, e.pongs.value), a.ok);
    }
  }

  lemma QuietEchoes(e: Endpoint, inp: seq<Frame>, a: Action)
    requires Echoes(e, inp)
    requires !a.LoopStep? && !a.LoopRead? && !a.StepCall? && !a.SendOpen? && !a.SendPing? && !a.SendPong?
    ensures var r := Exec(e, inp, a); r.Some? ==> Echoes(r.value, inp)
  {
    if a.InsertOpen? || a.FailOpen? {
      OpenKeepsLoop(e, a);
    } else if a.ShutStep? {
      ShutKeepsLoop(e);
    }
  }

  lemma OpenKeepsLoop(e: Endpoint, a: Action)
    requires a.InsertOpen? || a.FailOpen?
    ensures var r := OpenNext(e, a);
            r.Some? ==> r.value.sent == e.sent && r.value.loop == e.loop && r.value.pongs == e.pongs && r.value.rcvd == e.rcvd
  {
  }

  lemma ShutKeepsLoop(e: Endpoint)
    ensures var r := ShutNext(e);
            r.Some? ==> r.value.sent == e.sent && r.value.loop == e.loop && r.value.pongs == e.pongs && r.value.rcvd == e.rcvd
  {
  }

  lemma ExecEchoes(e: Endpoint, inp: seq<Frame>, a: Action)
    requires Echoes(e, inp)
    ensures var r := Exec(e, inp, a); r.Some? ==> Echoes(r.value, inp)
  {
    if a.LoopStep? {
      LoopEchoes(e, inp, a.choice);
    } else if a.LoopRead? {
      if e.rcvd < |inp| {
        MorePinged(inp, e.rcvd, e.rcvd + 1);
      }
    } else if a.StepCall? {
      if a.i in e.streams {
        CallEchoes(e, inp, a.i, a.call, a.ok);
      }
    } else if a.SendOpen? || a.SendPing? || a.SendPong? {
      SendEchoes(e, inp, a);
    } else {
      QuietEchoes(e, inp, a);
    }
  }

  lemma EchoesGrow(e: Endpoint, inp: seq<Frame>, more: seq<Frame>)
    requires Echoes(e, inp) && inp <= more
    ensures Echoes(e, more)
  {
    forall p | Pinged(inp, e.rcvd, p) ensures Pinged(more, e.rcvd, p) {
      var j :| 0 <= j < e.rcvd && inp[j].kind == Ping && inp[j].payload == p;
      assert more[j] == inp[j];
    }
  }

  /** In every run, every PONG carries the bytes of a PING that was taken before. */
  lemma {:induction false} PongsEcho(evs: seq<Event>, s: Side)
    requires Reachable(evs)
    ensures Echoes(Reached(evs).At(s), Reached(evs).Inbound(s))
  {
    if evs != [] {
      var init, last := evs[..|evs| - 1], evs[|evs| - 1];
      var w := Reached(init);
      PongsEcho(init, s);
      if last.side == s {
        ExecEchoes(w.At(s), w.Inbound(s), last.action);
      } else {
        ExecGrows(w.At(s.Other()), w.At(s).sent, last.action);
        EchoesGrow(w.At(s), w.Inbound(s), Reached(evs).Inbound(s));
      }
    }
  }
}

/** Every step of an endpoint keeps its invariant, given what its peer has sent. */
module MuxEndpoint {
  import opened Basics
  import opened Wire
  import opened MuxStream
  import opened MuxSession
  import opened MuxInvariant
  import opened MuxSteps

  /** Every stream but `i` sees no change, except that the socket may have broken. */
  ghost predicate Rest(e: Endpoint, e': Endpoint, inp: seq<Frame>, i: nat) {
    && e.rcvd <= |inp| && e'.rcvd <= |inp|
    && forall j :: j in e'.streams && j != i ==>
         j in e.streams && ViewOf(e', inp, j) == ViewOf(e, inp, j).(broken := e'.broken)
            && (e.broken ==> e'.broken)
  }

  lemma SetBroken(v: View, b: bool)
    requires VInv(v) && (v.broken ==> b)
    ensures VInv(v.(broken := b))
  {
    BrokenKeeps(v);
    assert b || v.(broken := b) == v;
  }

  /** Only stream `i` has to be looked at. */
  lemma Lift(e: Endpoint, e': Endpoint, inp: seq<Frame>, i: nat)
    requires EpInv(e, inp) && Base(e', inp) && Rest(e, e', inp, i)
    requires i in e'.streams ==> VInv(ViewOf(e', inp, i))
    ensures EpInv(e', inp)
  {
    forall j | j in e'.streams && j != i
      ensures VInv(ViewOf(e', inp, j))
    {
      SetBroken(ViewOf(e, inp, j), e'.broken);
    }
  }

  lemma RestTrans(e: Endpoint, e1: Endpoint, e2: Endpoint, inp: seq<Frame>, i: nat)
    requires Rest(e, e1, inp, i) && Rest(e1, e2, inp, i)
    ensures Rest(e, e2, inp, i)
  {
  }

  lemma SentTallies(e: Endpoint, f: Frame)
    ensures forall j: nat :: Tallied(e.sent + [f], j) == Count(Tallied(e.sent, j), f, j)
  {
    forall j: nat
      ensures Tallied(e.sent + [f], j) == Count(Tallied(e.sent, j), f, j)
    {
      TallyAppend(e.sent, f, j);
    }
  }

  lemma SentBase(e: Endpoint, inp: seq<Frame>, f: Frame)
    requires Base(e, inp) && (f.OnStream() ==> f.id in e.streams)
    ensures Base(e.(sent := e.sent + [f]), inp)
  {
    SentTallies(e, f);
  }

  lemma SentRest(e: Endpoint, inp: seq<Frame>, f: Frame)
    requires e.rcvd <= |inp|
    ensures Rest(e, e.(sent := e.sent + [f]), inp, f.id)
  {
    SentTallies(e, f);
  }

  lemma SentFrame(e: Endpoint, inp: seq<Frame>, f: Frame)
    requires Base(e, inp) && (f.OnStream() ==> f.id in e.streams)
    ensures var e' := e.(sent := e.sent + [f]);
            && Base(e', inp) && Rest(e, e', inp, f.id)
            && (f.id in e.streams ==>
                  var v := ViewOf(e, inp, f.id); ViewOf(e', inp, f.id) == v.(out := Count(v.out, f, f.id)))
  {
    SentBase(e, inp, f);
    SentRest(e, inp, f);
    TallyAppend(e.sent, f, f.id);
  }

  /** Writing a frame is seen only by its own stream. */
  lemma EmitFrame(e: Endpoint, inp: seq<Frame>, f: Frame, ok: bool)
    requires Base(e, inp) && (f.OnStream() ==> f.id in e.streams)
    ensures var e' := Emit(e, f, ok);
            && Base(e', inp) && Rest(e, e', inp, f.id)
            && (f.id in e.streams ==>
                  var v := ViewOf(e, inp, f.id);
                  ViewOf(e', inp, f.id)
                  == v.(out := if SendOk(e, ok) then Count(v.out, f, f.id) else v.out, broken := e'.broken))
            && e'.broken == (e.broken || (!e.closed && !SendOk(e, ok)))
  {
    if SendOk(e, ok) {
      SentFrame(e, inp, f);
    }
  }

  lemma StreamFrame(e: Endpoint, inp: seq<Frame>, i: nat, st: Stream)
    requires Base(e, inp) && i in e.streams
    ensures var e' := SetStream(e, i, st);
            Base(e', inp) && Rest(e, e', inp, i) && ViewOf(e', inp, i) == ViewOf(e, inp, i).(st := st)
  {
  }

  lemma TableFrame(e: Endpoint, inp: seq<Frame>, i: nat, table: set<nat>)
    requires Base(e, inp) && i in e.streams
    requires table == e.table || table == e.table + {i} || table == e.table - {i}
    ensures var e' := e.(table := table);
            Base(e', inp) && Rest(e, e', inp, i) && ViewOf(e', inp, i) == ViewOf(e, inp, i).(inTable := i in table)
  {
  }

  /** Replacing stream `i` and its table entry is seen only by stream `i`. */
  lemma SetFrame(e: Endpoint, inp: seq<Frame>, i: nat, st: Stream, table: set<nat>)
    requires Base(e, inp) && i in e.streams
    requires table == e.table || table == e.table + {i} || table == e.table - {i}
    ensures var e' := SetStream(e, i, st).(table := table);
            && Base(e', inp) && Rest(e, e', inp, i)
            && ViewOf(e', inp, i) == ViewOf(e, inp, i).(st := st, inTable := i in table)
  {
    var e1 := SetStream(e, i, st);
    StreamFrame(e, inp, i, st);
    TableFrame(e1, inp, i, table);
    RestTrans(e, e1, e1.(table := table), inp, i);
  }

  /** Moving the read loop along stream `i` is seen only by stream `i`. */
  lemma LoopFrame(e: Endpoint, inp: seq<Frame>, i: nat, l: LoopPc)
    requires Base(e, inp) && !l.LGot? && !l.LDead?
    requires LoopOn(e.loop, i) && (l == LIdle || (LoopOn(l, i) && i in e.streams))
    ensures var e' := e.(loop := l);
            && Base(e', inp) && Rest(e, e', inp, i)
            && (i in e.streams ==> ViewOf(e', inp, i) == ViewOf(e, inp, i).(loop := l))
  {
    assert forall j: nat :: j != i ==> !LoopOn(e.loop, j) && !LoopOn(l, j);
  }

  /** A call's effect is seen only by its stream. */
  lemma ApplyFrame(e: Endpoint, inp: seq<Frame>, i: nat, eff: Effect, ok: bool)
    requires Base(e, inp) && i in e.streams
    requires eff.emit.Some? ==> eff.emit.value.id == i && eff.emit.value.OnStream()
    ensures var e' := Apply(e, i, eff, ok);
            && Base(e', inp) && Rest(e, e', inp, i)
            && ViewOf(e', inp, i) == ViewStep(ViewOf(e, inp, i), i, eff, SendOk(e, ok))
  {
    var e1 := if eff.emit.Some? then Emit(e, eff.emit.value, ok) else e;
    if eff.emit.Some? {
      EmitFrame(e, inp, eff.emit.value, ok);
    } else {
      assert Rest(e, e1, inp, i);
    }
    SetFrame(e1, inp, i, eff.st, if eff.remove then e1.table - {i} else e1.table);
    RestTrans(e, e1, Apply(e, i, eff, ok), inp, i);
  }

  lemma CallFrameId(st: Stream, i: nat, c: Call, sendOk: bool)
    ensures var r := CallNext(st, i, c, sendOk);
            r.Some? && r.value.emit.Some? ==> r.value.emit.value.id == i && r.value.emit.value.OnStream()
  {
  }

  lemma CallStepKeeps(e: Endpoint, inp: seq<Frame>, i: nat, c: Call, ok: bool)
    requires EpInv(e, inp)
    ensures var r := Exec(e, inp, StepCall(i, c, ok)); r.Some? ==> EpInv(r.value, inp)
  {
    var r := Exec(e, inp, StepCall(i, c, ok));
    if r.Some? {
      CallFrameId(e.streams[i], i, c, SendOk(e, ok));
      ApplyFrame(e, inp, i, CallNext(e.streams[i], i, c, SendOk(e, ok)).value, ok);
      CallKeeps(ViewOf(e, inp, i), i, c, SendOk(e, ok));
      Lift(e, r.value, inp, i);
    }
  }

  lemma CopyStepKeeps(e: Endpoint, inp: seq<Frame>, i: nat, n: nat)
    requires EpInv(e, inp)
    ensures var r := Exec(e, inp, CopyOut(i, n)); r.Some? ==> EpInv(r.value, inp)
  {
    var r := Exec(e, inp, CopyOut(i, n));
    if r.Some? {
      StreamFrame(e, inp, i, r.value.streams[i]);
      CopyOutKeeps(ViewOf(e, inp, i), n);
      Lift(e, r.value, inp, i);
    }
  }

  lemma ReadStepKeeps(e: Endpoint, inp: seq<Frame>, i: nat, c: Choice)
    requires EpInv(e, inp)
    ensures var r := Exec(e, inp, StepRead(i, c)); r.Some? ==> EpInv(r.value, inp)
  {
    var r := Exec(e, inp, StepRead(i, c));
    if r.Some? {
      StreamFrame(e, inp, i, r.value.streams[i]);
      ReadKeeps(ViewOf(e, inp, i), c);
      Lift(e, r.value, inp, i);
    }
  }

  lemma HandledFrame(e: Endpoint, inp: seq<Frame>, i: nat, h: Handled)
    requires Base(e, inp) && !e.loop.LGot? && LoopOn(e.loop, i) && i in e.streams
    requires h.loop == LIdle || (LoopOn(h.loop, i) && !h.loop.LGot?)
    ensures var e' := SetStream(e, i, h.st).(loop := h.loop, table := if h.remove then e.table - {i} else e.table);
            && Base(e', inp) && Rest(e, e', inp, i)
            && ViewOf(e', inp, i) == ViewHandle(ViewOf(e, inp, i), h)
  {
    var table := if h.remove then e.table - {i} else e.table;
    var e1 := e.(loop := h.loop);
    LoopFrame(e, inp, i, h.loop);
    SetFrame(e1, inp, i, h.st, table);
    RestTrans(e, e1, SetStream(e, i, h.st).(loop := h.loop, table := table), inp, i);
  }

  lemma HandleFrame(e: Endpoint, inp: seq<Frame>, c: Choice)
    requires Base(e, inp) && !e.loop.LGot?
    ensures var r := LoopNext(e, c);
            r.Some? ==>
              && Base(r.value, inp) && e.loop.id in e.streams && Rest(e, r.value, inp, e.loop.id)
              && var h := HandleNext(e.loop, e.streams[e.loop.id], e.done, c).value;
                 ViewOf(r.value, inp, e.loop.id) == ViewHandle(ViewOf(e, inp, e.loop.id), h)
  {
    var r := LoopNext(e, c);
    if r.Some? {
      var i := e.loop.id;
      HandleStays(e.loop, e.streams[i], e.done, c);
      HandledFrame(e, inp, i, HandleNext(e.loop, e.streams[i], e.done, c).value);
    }
  }

  /** The handling of a frame stays on the frame's stream until it ends. */
  lemma HandleStays(l: LoopPc, st: Stream, done: bool, c: Choice)
    requires !l.LIdle? && !l.LDead? && !l.LGot?
    ensures var h := HandleNext(l, st, done, c);
            h.Some? ==> h.value.loop == LIdle || (LoopOn(h.value.loop, l.id) && !h.value.loop.LGot?)
  {
  }

  lemma LoopHandleKeeps(e: Endpoint, inp: seq<Frame>, c: Choice)
    requires EpInv(e, inp) && !e.loop.LGot?
    ensures var r := LoopNext(e, c); r.Some? ==> EpInv(r.value, inp)
  {
    var r := LoopNext(e, c);
    if r.Some? {
      HandleFrame(e, inp, c);
      HandleKeeps(ViewOf(e, inp, e.loop.id), c);
      Lift(e, r.value, inp, e.loop.id);
    }
  }

  lemma OpenedFrame(e: Endpoint, inp: seq<Frame>)
    requires Base(e, inp) && e.loop.LGot? && e.loop.f.kind == Open
    ensures var e', i := Dispatch(e, e.loop.f), e.loop.f.id;
            && Base(e', inp) && Rest(e, e', inp, i)
            && (if e.closed then i !in e'.streams
                else i in e'.streams && ViewOf(e', inp, i)
                     == View(NewStream(Live), false, ZERO, Count(ZERO, e.loop.f, i), true, LIdle, false, NotOn,
                             false, false, e.broken))
  {
    var e', i := Dispatch(e, e.loop.f), e.loop.f.id;
    TallyShape(e.sent, i);
    assert forall j: nat :: j != i ==> !LoopOn(e.loop, j);
  }

  lemma DispatchOpenKeeps(e: Endpoint, inp: seq<Frame>)
    requires EpInv(e, inp) && e.loop.LGot? && e.loop.f.kind == Open
    ensures EpInv(Dispatch(e, e.loop.f), inp)
  {
    OpenedFrame(e, inp);
    assert Flat<byte>([]) == [];
    Lift(e, Dispatch(e, e.loop.f), inp, e.loop.f.id);
  }

  lemma RoutedKeeps(e: Endpoint, inp: seq<Frame>)
    requires EpInv(e, inp) && e.loop.LGot? && e.loop.f.OnStream() && e.loop.f.kind != Open && e.loop.f.id in e.table
    ensures EpInv(Dispatch(e, e.loop.f), inp)
  {
    var f, i := e.loop.f, e.loop.f.id;
    LoopFrame(e, inp, i, Route(f, i));
    RouteKeeps(ViewOf(e, inp, i), i);
    assert Dispatch(e, f) == e.(loop := Route(f, i));
    Lift(e, Dispatch(e, f), inp, i);
  }

  /** `Lose` and a dropped CLOSE or RESET are seen only by their stream. */
  lemma DroppedFrame(e: Endpoint, inp: seq<Frame>)
    requires Base(e, inp) && e.loop.LGot? && e.loop.f.OnStream() && e.loop.f.kind != Open && e.loop.f.id !in e.table
    ensures var e', f := Dispatch(e, e.loop.f), e.loop.f;
            && Base(e', inp) && Rest(e, e', inp, f.id)
            && (f.id in e'.streams ==>
                  f.id in e.streams
                  && var v := ViewOf(e, inp, f.id);
                     ViewOf(e', inp, f.id)
                     == v.(loop := LIdle, st := if f.kind == Data then v.st.(rd := v.st.rd.(lost := true)) else v.st))
  {
    var f, i, e1 := e.loop.f, e.loop.f.id, e.(loop := LIdle);
    LoopFrame(e, inp, i, LIdle);
    if f.kind == Data && i in e.streams {
      var st := e.streams[i].(rd := e.streams[i].rd.(lost := true));
      StreamFrame(e1, inp, i, st);
      RestTrans(e, e1, SetStream(e1, i, st), inp, i);
      assert Dispatch(e, f) == SetStream(e1, i, st);
    } else {
      assert Dispatch(e, f) == e1;
    }
  }

  lemma DroppedKeeps(e: Endpoint, inp: seq<Frame>)
    requires EpInv(e, inp) && e.loop.LGot? && e.loop.f.OnStream() && e.loop.f.kind != Open && e.loop.f.id !in e.table
    ensures EpInv(Dispatch(e, e.loop.f), inp)
  {
    DroppedFrame(e, inp);
    if e.loop.f.id in e.streams {
      DropKeeps(ViewOf(e, inp, e.loop.f.id));
    }
    Lift(e, Dispatch(e, e.loop.f), inp, e.loop.f.id);
  }

  /** PING, PONG and the end of the read loop concern no stream. */
  lemma LoopQuietKeeps(e: Endpoint, inp: seq<Frame>, l: LoopPc, pongs: Option<seq<byte>>)
    requires EpInv(e, inp) && (l == LIdle || l == LDead)
    requires forall j: nat :: !LoopOn(e.loop, j)
    ensures EpInv(e.(loop := l, pongs := pongs), inp)
  {
    var e' := e.(loop := l, pongs := pongs);
    assert forall j: nat :: !LoopOn(l, j);
    forall j | j in e'.streams
      ensures VInv(ViewOf(e', inp, j))
    {
      assert ViewOf(e', inp, j) == ViewOf(e, inp, j);
    }
  }

  /** What the next inbound frame can be. */
  lemma NextInbound(e: Endpoint, inp: seq<Frame>)
    requires Base(e, inp) && PeerOk(e, inp) && e.rcvd < |inp|
    requires forall i :: i in e.streams && !Own(e, i) ==> Tallied(inp[..e.rcvd], i).opens > 0
    ensures var f, t := inp[e.rcvd], Tallied(inp[..e.rcvd], inp[e.rcvd].id);
            && Count(t, f, f.id).late == 0
            && (f.kind == Open ==> !Own(e, f.id) && f.id !in e.streams && t == ZERO)
  {
    var f := inp[e.rcvd];
    TallyTake(inp, e.rcvd, f.id);
    TallyMonotone(inp, e.rcvd + 1, f.id);
    TallyShape(inp[..e.rcvd], f.id);
  }

  lemma LoopReadFrame(e: Endpoint, inp: seq<Frame>)
    requires Base(e, inp) && e.rcvd < |inp| && e.loop == LIdle
    requires var f := inp[e.rcvd];
             f.kind == Open ==> !Own(e, f.id) && f.id !in e.streams && Tallied(inp[..e.rcvd], f.id) == ZERO
    ensures var e', f := e.(loop := LGot(inp[e.rcvd]), rcvd := e.rcvd + 1), inp[e.rcvd];
            && Base(e', inp) && Rest(e, e', inp, f.id)
            && (f.id in e.streams ==>
                  var v := ViewOf(e, inp, f.id);
                  ViewOf(e', inp, f.id)
                  == if f.OnStream() then v.(inn := Count(v.inn, f, f.id), loop := LGot(f)) else v)
  {
    var f := inp[e.rcvd];
    forall j: nat
      ensures Tallied(inp[..e.rcvd + 1], j) == Count(Tallied(inp[..e.rcvd], j), f, j)
    {
      TallyTake(inp, e.rcvd, j);
    }
    assert forall j: nat :: j != f.id ==> !LoopOn(LGot(f), j);
  }

  lemma LoopReadStepKeeps(e: Endpoint, inp: seq<Frame>)
    requires EpInv(e, inp) && PeerOk(e, inp)
    ensures var r := Exec(e, inp, LoopRead); r.Some? ==> EpInv(r.value, inp)
  {
    var r := Exec(e, inp, LoopRead);
    if r.Some? {
      forall i | i in e.streams && !Own(e, i)
        ensures Tallied(inp[..e.rcvd], i).opens > 0
      {
        assert VInv(ViewOf(e, inp, i));
      }
      NextInbound(e, inp);
      LoopReadFrame(e, inp);
      var f := inp[e.rcvd];
      if f.OnStream() && f.id in e.streams {
        Reaches(e, inp, f);
        LoopReadKeeps(ViewOf(e, inp, f.id), f, f.id);
      }
      Lift(e, r.value, inp, f.id);
    }
  }

  /** A frame can only be for a stream that has been handed out. */
  lemma Reaches(e: Endpoint, inp: seq<Frame>, f: Frame)
    requires EpInv(e, inp) && PeerOk(e, inp) && e.rcvd < |inp| && f == inp[e.rcvd]
    requires f.OnStream() && f.id in e.streams
    ensures e.streams[f.id].phase == Live
  {
    TallyTake(inp, e.rcvd, f.id);
    TallyMonotone(inp, e.rcvd + 1, f.id);
    assert VInv(ViewOf(e, inp, f.id));
  }

  lemma AllocKeeps(e: Endpoint, inp: seq<Frame>)
    requires EpInv(e, inp) && PeerOk(e, inp)
    ensures EpInv(Exec(e, inp, AllocOpen).value, inp)
  {
    var e', i := Exec(e, inp, AllocOpen).value, e.nextID;
    AllocFrame(e, inp);
    assert Flat<byte>([]) == [];
    Lift(e, e', inp, i);
  }

  /** Nothing has been sent or taken for the next id, and nobody is at work on it. */
  lemma NextIdUnused(e: Endpoint, inp: seq<Frame>)
    requires Base(e, inp) && PeerOk(e, inp)
    ensures e.nextID !in e.streams && Tallied(e.sent, e.nextID) == ZERO && Tallied(inp[..e.rcvd], e.nextID) == ZERO
    ensures !LoopOn(e.loop, e.nextID)
  {
    var i := e.nextID;
    assert i !in e.streams;
    TallyShape(e.sent, i);
    TallyMonotone(inp, e.rcvd, i);
    TallyShape(inp[..e.rcvd], i);
  }

  lemma AllocBase(e: Endpoint, inp: seq<Frame>)
    requires Base(e, inp) && PeerOk(e, inp)
    ensures Base(Exec(e, inp, AllocOpen).value, inp)
  {
    NextIdUnused(e, inp);
  }

  lemma AllocFrame(e: Endpoint, inp: seq<Frame>)
    requires Base(e, inp) && PeerOk(e, inp)
    ensures var e', i := Exec(e, inp, AllocOpen).value, e.nextID;
            && Base(e', inp) && Rest(e, e', inp, i)
            && ViewOf(e', inp, i) == View(NewStream(Allocated), true, ZERO, ZERO, false, LIdle, false, NotOn,
                                          e.closed, e.done, e.broken)
            && (e.done ==> e.closed)
  {
    AllocBase(e, inp);
    NextIdUnused(e, inp);
  }

  lemma InsertKeeps(v: View)
    requires VInv(v) && v.st.phase == Allocated
    ensures v.closed ==> VInv(v.(st := v.st.(phase := Refused)))
    ensures !v.closed ==> VInv(v.(st := v.st.(phase := Inserted), inTable := true))
  {
  }

  lemma SendOpenKeeps(v: View, i: nat, meta: seq<byte>, broken: bool)
    requires VInv(v) && v.st.phase == Inserted && v.own && (v.broken ==> broken)
    ensures VInv(v.(st := v.st.(phase := Live), out := Count(v.out, Frame(Open, i, meta), i)))
    ensures VInv(v.(st := v.st.(phase := Failing), broken := broken))
  {
  }

  lemma FailOpenKeeps(v: View)
    requires VInv(v) && v.st.phase == Failing
    ensures VInv(v.(st := v.st.(phase := Refused), inTable := false))
  {
  }

  lemma OpenKeeps(e: Endpoint, inp: seq<Frame>, a: Action)
    requires EpInv(e, inp) && (a.InsertOpen? || a.FailOpen?)
    ensures var r := OpenNext(e, a); r.Some? ==> EpInv(r.value, inp)
  {
    var r := OpenNext(e, a);
    if r.Some? {
      var e', v := r.value, ViewOf(e, inp, a.i);
      SetFrame(e, inp, a.i, e'.streams[a.i], e'.table);
      if a.InsertOpen? {
        InsertKeeps(v);
      } else {
        FailOpenKeeps(v);
      }
      assert e' == SetStream(e, a.i, e'.streams[a.i]).(table := e'.table);
      Lift(e, e', inp, a.i);
    }
  }

  /** A frame of stream `i` and a new state for it. */
  lemma EmitSetFrame(e: Endpoint, inp: seq<Frame>, f: Frame, ok: bool, st: Stream)
    requires Base(e, inp) && f.id in e.streams
    ensures var e', v := SetStream(Emit(e, f, ok), f.id, st), ViewOf(e, inp, f.id);
            && Base(e', inp) && Rest(e, e', inp, f.id)
            && ViewOf(e', inp, f.id)
               == v.(st := st, out := if SendOk(e, ok) then Count(v.out, f, f.id) else v.out, broken := e'.broken)
            && e'.broken == (e.broken || (!e.closed && !SendOk(e, ok)))
  {
    var e1 := Emit(e, f, ok);
    EmitFrame(e, inp, f, ok);
    StreamFrame(e1, inp, f.id, st);
    RestTrans(e, e1, SetStream(e1, f.id, st), inp, f.id);
  }

  lemma OpenSendKeeps(e: Endpoint, inp: seq<Frame>, i: nat, meta: seq<byte>, ok: bool)
    requires EpInv(e, inp)
    ensures var r := OpenNext(e, SendOpen(i, meta, ok)); r.Some? ==> EpInv(r.value, inp)
  {
    var r := OpenNext(e, SendOpen(i, meta, ok));
    if r.Some? {
      EmitSetFrame(e, inp, Frame(Open, i, meta), ok, r.value.streams[i]);
      SendOpenKeeps(ViewOf(e, inp, i), i, meta, r.value.broken);
      Lift(e, r.value, inp, i);
    }
  }

  lemma PongFrame(e: Endpoint, inp: seq<Frame>, pongs: Option<seq<byte>>)
    requires EpInv(e, inp)
    ensures EpInv(e.(pongs := pongs), inp)
  {
    var e' := e.(pongs := pongs);
    forall j | j in e'.streams
      ensures VInv(ViewOf(e', inp, j))
    {
      assert ViewOf(e', inp, j) == ViewOf(e, inp, j);
    }
  }

  lemma BeatKeeps(e: Endpoint, inp: seq<Frame>, f: Frame, ok: bool)
    requires EpInv(e, inp) && !f.OnStream()
    ensures EpInv(Emit(e, f, ok), inp)
  {
    var e' := Emit(e, f, ok);
    EmitFrame(e, inp, f, ok);
    if f.id in e.streams {
      SetBroken(ViewOf(e, inp, f.id), e'.broken);
    }
    Lift(e, e', inp, f.id);
  }

  lemma ShutBeginFrame(e: Endpoint, inp: seq<Frame>, err: nat)
    requires Base(e, inp) && !e.closed
    ensures var e' := e.(closed := true, closeErr := err, shut := SLoop(e.table));
            Base(e', inp) && forall j :: j in e.streams ==>
              ViewOf(e, inp, j).shutOn == NotOn
              && ViewOf(e', inp, j) == ViewOf(e, inp, j).(closed := true, shutPend := j in e.table)
  {
  }

  lemma CloseAllKeeps(e: Endpoint, inp: seq<Frame>, err: nat)
    requires EpInv(e, inp) && !e.closed
    ensures EpInv(Exec(e, inp, ShutBegin(err)).value, inp)
  {
    ShutBeginFrame(e, inp, err);
    forall j | j in e.streams
      ensures VInv(ViewOf(e, inp, j).(closed := true, shutPend := j in e.table))
    {
      ShutBeginKeeps(ViewOf(e, inp, j));
    }
  }

  /** shutdown moves on from, to or along stream `i`. */
  lemma ShutFrame(e: Endpoint, inp: seq<Frame>, i: nat, s: ShutPc)
    requires Base(e, inp) && i in e.streams && e.closed && !e.done
    requires s.SLoop? || ((s.SEof? || s.SSignal?) && s.id == i)
    requires e.shut.SLoop? || ((e.shut.SEof? || e.shut.SSignal?) && e.shut.id == i)
    requires Remaining(s) - {i} == Remaining(e.shut) - {i} && Remaining(s) <= Remaining(e.shut)
    ensures var e' := e.(shut := s);
            && Base(e', inp) && Rest(e, e', inp, i)
            && ViewOf(e', inp, i) == ViewOf(e, inp, i).(shutPend := i in Remaining(s), shutOn := ShutOnOf(s, i))
  {
    assert forall j :: j != i ==> (j in Remaining(s) <==> j in Remaining(s) - {i});
    assert forall j :: j != i ==> (j in Remaining(e.shut) <==> j in Remaining(e.shut) - {i});
  }

  lemma ShutTouchFrame(e: Endpoint, inp: seq<Frame>, i: nat, s: ShutPc, rd: Receiver)
    requires Base(e, inp) && i in e.streams && e.closed && !e.done
    requires s.SLoop? || ((s.SEof? || s.SSignal?) && s.id == i)
    requires e.shut.SLoop? || ((e.shut.SEof? || e.shut.SSignal?) && e.shut.id == i)
    requires Remaining(s) - {i} == Remaining(e.shut) - {i} && Remaining(s) <= Remaining(e.shut)
    ensures var e', v := SetRd(e, i, rd).(shut := s), ViewOf(e, inp, i);
            && Base(e', inp) && Rest(e, e', inp, i)
            && ViewOf(e', inp, i)
               == v.(st := v.st.(rd := rd), shutPend := i in Remaining(s), shutOn := ShutOnOf(s, i))
  {
    var e1 := e.(shut := s);
    ShutFrame(e, inp, i, s);
    StreamFrame(e1, inp, i, e.streams[i].(rd := rd));
    RestTrans(e, e1, SetRd(e1, i, rd), inp, i);
    assert SetRd(e1, i, rd) == SetRd(e, i, rd).(shut := s);
  }

  lemma ShutMarkFrame(e: Endpoint, inp: seq<Frame>, i: nat)
    requires Base(e, inp)
    ensures var r := Exec(e, inp, ShutMark(i));
            r.Some? ==>
              && i in e.streams && i in Remaining(e.shut) && ShutOnOf(e.shut, i) == NotOn
              && Base(r.value, inp) && Rest(e, r.value, inp, i)
              && var v := ViewOf(e, inp, i);
                 ViewOf(r.value, inp, i)
                 == v.(st := v.st.(rd := MarkReadDone(v.st.rd, SessionClosed, ByShutdown)), shutPend := false,
                       shutOn := if v.st.rd.readDone then OnSignal else OnEof)
  {
    var r := Exec(e, inp, ShutMark(i));
    if r.Some? {
      var rem, rd := e.shut.rem - {i}, e.streams[i].rd;
      ShutTouchFrame(e, inp, i, if rd.readDone then SSignal(i, rem) else SEof(i, rem),
                     MarkReadDone(rd, SessionClosed, ByShutdown));
    }
  }

  lemma ShutMarkStepKeeps(e: Endpoint, inp: seq<Frame>, i: nat)
    requires EpInv(e, inp)
    ensures var r := Exec(e, inp, ShutMark(i)); r.Some? ==> EpInv(r.value, inp)
  {
    var r := Exec(e, inp, ShutMark(i));
    if r.Some? {
      ShutMarkFrame(e, inp, i);
      ShutMarkKeeps(ViewOf(e, inp, i));
      Lift(e, r.value, inp, i);
    }
  }

  lemma ShutOneFrame(e: Endpoint, inp: seq<Frame>)
    requires Base(e, inp) && (e.shut.SEof? || e.shut.SSignal?)
    ensures ShutNext(e).Some?
    ensures var e', i := ShutNext(e).value, e.shut.id;
            && i in e.streams && Base(e', inp) && Rest(e, e', inp, i)
            && var v := ViewOf(e, inp, i);
               ViewOf(e', inp, i)
               == if e.shut.SEof? then v.(st := v.st.(rd := CloseEof(v.st.rd)), shutOn := OnSignal)
                  else v.(st := v.st.(rd := v.st.rd.(aborted := true)), shutOn := NotOn)
  {
    var i, rd := e.shut.id, e.streams[e.shut.id].rd;
    if e.shut.SEof? {
      ShutTouchFrame(e, inp, i, SSignal(i, e.shut.rem), CloseEof(rd));
    } else {
      ShutTouchFrame(e, inp, i, SLoop(e.shut.rem), rd.(aborted := true));
    }
  }

  lemma ShutOneKeeps(e: Endpoint, inp: seq<Frame>)
    requires EpInv(e, inp) && (e.shut.SEof? || e.shut.SSignal?)
    ensures ShutNext(e).Some? && EpInv(ShutNext(e).value, inp)
  {
    ShutOneFrame(e, inp);
    if e.shut.SEof? {
      ShutEofKeeps(ViewOf(e, inp, e.shut.id));
    } else {
      ShutSignalKeeps(ViewOf(e, inp, e.shut.id));
    }
    Lift(e, ShutNext(e).value, inp, e.shut.id);
  }

  lemma ShutEndFrame(e: Endpoint, inp: seq<Frame>)
    requires Base(e, inp)
    ensures e.shut == SLoop({}) ==>
      var e' := e.(done := true, shut := SClosing);
      Base(e', inp) && forall j :: j in e.streams ==>
        ViewOf(e, inp, j).closed && !ViewOf(e, inp, j).shutPend
        && ViewOf(e', inp, j) == ViewOf(e, inp, j).(done := true)
    ensures e.shut == SClosing ==>
      var e' := e.(broken := true, shut := SDone);
      Base(e', inp) && forall j :: j in e.streams ==> ViewOf(e', inp, j) == ViewOf(e, inp, j).(broken := true)
  {
  }

  lemma ShutEndKeeps(e: Endpoint, inp: seq<Frame>)
    requires EpInv(e, inp) && !e.shut.SEof? && !e.shut.SSignal?
    ensures var r := ShutNext(e); r.Some? ==> EpInv(r.value, inp)
  {
    if ShutNext(e).Some? {
      ShutEndFrame(e, inp);
      forall j | j in e.streams
        ensures e.shut.SLoop? ==> VInv(ViewOf(e, inp, j).(done := true))
        ensures VInv(ViewOf(e, inp, j).(broken := true))
      {
        if e.shut.SLoop? {
          DoneKeeps(ViewOf(e, inp, j));
        }
        BrokenKeeps(ViewOf(e, inp, j));
      }
    }
  }

  /** Any step at all. */
  lemma ExecKeeps(e: Endpoint, inp: seq<Frame>, a: Action)
    requires EpInv(e, inp) && PeerOk(e, inp)
    ensures var r := Exec(e, inp, a); r.Some? ==> EpInv(r.value, inp)
  {
    match a
    case AllocOpen => AllocKeeps(e, inp);
    case InsertOpen(_) => OpenKeeps(e, inp, a);
    case SendOpen(i, meta, ok) => OpenSendKeeps(e, inp, i, meta, ok);
    case FailOpen(_) => OpenKeeps(e, inp, a);
    case StepCall(i, c, ok) => CallStepKeeps(e, inp, i, c, ok);
    case CopyOut(i, n) => CopyStepKeeps(e, inp, i, n);
    case StepRead(i, c) => ReadStepKeeps(e, inp, i, c);
    case LoopRead => LoopReadStepKeeps(e, inp);
    case LoopStep(c) => LoopStepKeeps(e, inp, c);
    case LoopFail => if e.loop == LIdle { LoopQuietKeeps(e, inp, LDead, e.pongs); }
    case ShutBegin(err) => if !e.closed { CloseAllKeeps(e, inp, err); }
    case ShutMark(i) => ShutMarkStepKeeps(e, inp, i);
    case ShutStep =>
      if e.shut.SEof? || e.shut.SSignal? { ShutOneKeeps(e, inp); } else { ShutEndKeeps(e, inp); }
    case SendPing(stamp, ok) => BeatKeeps(e, inp, Frame(Ping, 0, stamp), ok);
    case SendPong(ok) =>
      if e.pongs.Some? {
        PongFrame(e, inp, None);
        BeatKeeps(e.(pongs := None), inp, Frame(Pong, 0, e.pongs.value), ok);
      }
  }

  lemma LoopStepKeeps(e: Endpoint, inp: seq<Frame>, c: Choice)
    requires EpInv(e, inp)
    ensures var r := LoopNext(e, c); r.Some? ==> EpInv(r.value, inp)
  {
    if e.loop.LGot? {
      DispatchKeeps(e, inp);
    } else {
      LoopHandleKeeps(e, inp, c);
    }
  }

  lemma DispatchBeatKeeps(e: Endpoint, inp: seq<Frame>)
    requires EpInv(e, inp) && e.loop.LGot? && !e.loop.f.OnStream()
    ensures EpInv(Dispatch(e, e.loop.f), inp)
  {
    var pongs := Dispatch(e, e.loop.f).pongs;
    LoopQuietKeeps(e, inp, LIdle, pongs);
    assert Dispatch(e, e.loop.f) == e.(loop := LIdle, pongs := pongs);
  }

  lemma DispatchKeeps(e: Endpoint, inp: seq<Frame>)
    requires EpInv(e, inp) && e.loop.LGot?
    ensures EpInv(Dispatch(e, e.loop.f), inp)
  {
    if !e.loop.f.OnStream() {
      DispatchBeatKeeps(e, inp);
    } else if e.loop.f.kind == Open {
      DispatchOpenKeeps(e, inp);
    } else if e.loop.f.id in e.table {
      RoutedKeeps(e, inp);
    } else {
      DroppedKeeps(e, inp);
    }
  }
}

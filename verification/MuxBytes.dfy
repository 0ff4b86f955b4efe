/** The frames of a run as bytes: the FIFO pipes of the session model are byte pipes. */
module MuxBytes {
  import opened Basics
  import Wire
  import opened MuxStream
  import opened MuxSession
  import opened MuxWorld
  import opened MuxInvariant
  import MuxTheorems
  import MuxDrain
  import FrameCodec

  function TypeByte(k: Wire.Kind): byte {
    match k
    case Open => 0x01
    case Data => 0x02
    case Ping => 0x03
    case Pong => 0x04
    case Close => 0x05
    case Reset => 0x06
  }

  /** The type bytes of the protocol. */
  lemma TypeBytes()
    ensures TypeByte(Wire.Open) == 0x01 && TypeByte(Wire.Data) == 0x02 && TypeByte(Wire.Ping) == 0x03
    ensures TypeByte(Wire.Pong) == 0x04 && TypeByte(Wire.Close) == 0x05 && TypeByte(Wire.Reset) == 0x06
    ensures forall b: byte :: KindOf(b).Some? <==> 1 <= b <= 6
  {
  }

  /** readLoop's switch on the type byte; None is the unknown-type error. */
  function KindOf(b: byte): Option<Wire.Kind> {
    match b
    case 0x01 => Some(Wire.Open)
    case 0x02 => Some(Wire.Data)
    case 0x03 => Some(Wire.Ping)
    case 0x04 => Some(Wire.Pong)
    case 0x05 => Some(Wire.Close)
    case 0x06 => Some(Wire.Reset)
    case _ => None
  }

  /** Session.writeFrame hands the codec the low 32 bits of an id. */
  function ToRaw(f: Wire.Frame): FrameCodec.Raw {
    FrameCodec.Raw(TypeByte(f.kind), f.id % FrameCodec.TWO32, f.payload)
  }

  function FromRaw(r: FrameCodec.Raw): Option<Wire.Frame> {
    var k := KindOf(r.typ);
    if k.None? then None else Some(Wire.Frame(k.value, r.id, r.payload))
  }

  function Raws(fs: seq<Wire.Frame>): (r: seq<FrameCodec.Raw>)
    ensures |r| == |fs| && forall k :: 0 <= k < |fs| ==> r[k] == ToRaw(fs[k])
  {
    seq(|fs|, k requires 0 <= k < |fs| => ToRaw(fs[k]))
  }

  /** Everything side `s` has put on its socket. */
  function BytesOf(w: World, s: Side): seq<byte> {
    FrameCodec.EncodeAll(Raws(w.At(s).sent))
  }

  // ---- What a run sends fits its frames, OPEN metadata aside ----

  /** Only an OPEN can be too long for a frame: its metadata is its caller's. */
  ghost predicate Sized(fs: seq<Wire.Frame>) {
    forall k :: 0 <= k < |fs| && fs[k].kind != Wire.Open ==> Fits(fs[k])
  }

  /** And so it is with what an endpoint holds and owes. */
  ghost predicate EndpointSized(e: Endpoint) {
    && Sized(e.sent)
    && (e.loop.LGot? ==> Fits(e.loop.f))
    && (e.pongs.Some? ==> |e.pongs.value| <= FrameCodec.MAX_PAYLOAD)
  }

  lemma EmitSized(e: Endpoint, f: Wire.Frame, ok: bool)
    requires EndpointSized(e) && (f.kind == Wire.Open || Fits(f))
    ensures EndpointSized(Emit(e, f, ok))
  {
  }

  lemma CallFits(st: MuxStream.Stream, i: nat, c: Call, sendOk: bool)
    ensures var r := CallNext(st, i, c, sendOk); r.Some? && r.value.emit.Some? ==> Fits(r.value.emit.value)
  {
  }

  lemma DispatchSized(e: Endpoint, f: Wire.Frame)
    requires EndpointSized(e) && Fits(f)
    ensures EndpointSized(Dispatch(e, f))
  {
  }

  lemma HandleLeavesFrame(l: LoopPc, st: MuxStream.Stream, done: bool, c: Choice)
    ensures var h := HandleNext(l, st, done, c); h.Some? ==> !h.value.loop.LGot?
  {
  }

  lemma LoopSized(e: Endpoint, c: Choice)
    requires EndpointSized(e)
    ensures var r := LoopNext(e, c); r.Some? ==> EndpointSized(r.value)
  {
    if e.loop.LGot? {
      DispatchSized(e, e.loop.f);
    } else if LoopNext(e, c).Some? {
      HandleLeavesFrame(e.loop, e.streams[e.loop.id], e.done, c);
    }
  }

  /** A PONG echoes a PING that was taken; everything else is a chunk, empty, a timestamp or an OPEN. */
  lemma ExecSized(e: Endpoint, inp: seq<Wire.Frame>, a: Action)
    requires EndpointSized(e)
    ensures var r := Exec(e, inp, a); r.Some? ==> EndpointSized(r.value)
  {
    if a.LoopStep? {
      LoopSized(e, a.choice);
    } else if a.StepCall? {
      if a.i in e.streams {
        ApplySized(e, a.i, a.call, a.ok);
      }
    } else if a.SendOpen? || a.SendPing? || a.SendPong? {
      SendSized(e, inp, a);
    } else {
      QuietSized(e, inp, a);
    }
  }

  lemma SendSized(e: Endpoint, inp: seq<Wire.Frame>, a: Action)
    requires EndpointSized(e) && (a.SendOpen? || a.SendPing? || a.SendPong?)
    ensures var r := Exec(e, inp, a); r.Some? ==> EndpointSized(r.value)
  {
    if a.SendOpen? {
      EmitSized(e, Wire.Frame(Wire.Open, a.i, a.meta), a.ok);
    } else if a.SendPing? && |a.stamp| == PING_TIMESTAMP {
      EmitSized(e, Wire.Frame(Wire.Ping, 0, a.stamp), a.ok);
    } else if a.SendPong? && e.pongs.Some? {
      EmitSized(e.(pongs := None), Wire.Frame(Wire.Pong, 0, e.pongs.value), a.ok);
    }
  }

  /** Steps that write nothing; only LoopRead takes a frame in hand. */
  lemma QuietSized(e: Endpoint, inp: seq<Wire.Frame>, a: Action)
    requires EndpointSized(e)
    requires !a.LoopStep? && !a.StepCall? && !a.SendOpen? && !a.SendPing? && !a.SendPong?
    ensures var r := Exec(e, inp, a); r.Some? ==> EndpointSized(r.value)
  {
    if a.InsertOpen? || a.FailOpen? {
      OpenQuiet(e, a);
    } else if a.ShutStep? {
      ShutQuiet(e);
    }
  }

  lemma OpenQuiet(e: Endpoint, a: Action)
    requires a.InsertOpen? || a.FailOpen?
    ensures var r := OpenNext(e, a);
            r.Some? ==> r.value.sent == e.sent && r.value.loop == e.loop && r.value.pongs == e.pongs
  {
  }

  lemma ShutQuiet(e: Endpoint)
    ensures var r := ShutNext(e);
            r.Some? ==> r.value.sent == e.sent && r.value.loop == e.loop && r.value.pongs == e.pongs
  {
  }

  lemma ApplySized(e: Endpoint, i: nat, c: Call, ok: bool)
    requires EndpointSized(e) && i in e.streams
    ensures var r := CallNext(e.streams[i], i, c, SendOk(e, ok)); r.Some? ==> EndpointSized(Apply(e, i, r.value, ok))
  {
    var r := CallNext(e.streams[i], i, c, SendOk(e, ok));
    CallFits(e.streams[i], i, c, SendOk(e, ok));
    if r.Some? && r.value.emit.Some? {
      EmitSized(e, r.value.emit.value, ok);
    }
  }

  /** In every run, every frame either side sends fits, echoed PONGs included, unless it is an OPEN. */
  lemma {:induction false} PayloadsFit(evs: seq<Event>, s: Side)
    requires Reachable(evs)
    ensures EndpointSized(Reached(evs).At(s))
  {
    if evs != [] {
      var init, last := evs[..|evs| - 1], evs[|evs| - 1];
      PayloadsFit(init, s);
      if last.side == s {
        ExecSized(Reached(init).At(s), Reached(init).Inbound(s), last.action);
      }
    }
  }

  // ---- OPEN metadata ----

  /** No OPEN's metadata is so long that its length would not fit four bytes. */
  ghost predicate MetadataShort(evs: seq<Event>) {
    forall k :: 0 <= k < |evs| && evs[k].action.SendOpen? ==> |evs[k].action.meta| < FrameCodec.TWO32
  }

  ghost predicate OpensShort(fs: seq<Wire.Frame>) {
    forall k :: 0 <= k < |fs| && fs[k].kind == Wire.Open ==> |fs[k].payload| < FrameCodec.TWO32
  }

  lemma ExecOpens(e: Endpoint, inp: seq<Wire.Frame>, a: Action)
    requires OpensShort(e.sent) && (a.SendOpen? ==> |a.meta| < FrameCodec.TWO32)
    ensures var r := Exec(e, inp, a); r.Some? ==> OpensShort(r.value.sent)
  {
    if a.LoopStep? {
      LoopSilent(e, a.choice);
    } else if a.StepCall? && a.i in e.streams {
      CallFits(e.streams[a.i], a.i, a.call, SendOk(e, a.ok));
    }
  }

  lemma {:induction false} OpensStayShort(evs: seq<Event>, s: Side)
    requires Reachable(evs) && MetadataShort(evs)
    ensures OpensShort(Reached(evs).At(s).sent)
  {
    if evs != [] {
      var init, last := evs[..|evs| - 1], evs[|evs| - 1];
      OpensStayShort(init, s);
      if last.side == s {
        ExecOpens(Reached(init).At(s), Reached(init).Inbound(s), last.action);
      }
    }
  }

  ghost predicate LengthsFit(fs: seq<Wire.Frame>) {
    forall k :: 0 <= k < |fs| ==> |fs[k].payload| < FrameCodec.TWO32
  }

  lemma AllLengthsFit(evs: seq<Event>, s: Side)
    requires Reachable(evs) && MetadataShort(evs)
    ensures LengthsFit(Reached(evs).At(s).sent)
  {
    OpensStayShort(evs, s);
    PayloadsFit(evs, s);
  }

  // ---- Ids ----

  /** How many streams side `s` has begun to open. */
  function Allocs(evs: seq<Event>, s: Side): nat {
    if evs == [] then 0
    else
      var last := evs[|evs| - 1];
      Allocs(evs[..|evs| - 1], s) + if last.side == s && last.action == AllocOpen then 1 else 0
  }

  lemma LoopAllocsNothing(e: Endpoint, c: Choice)
    ensures var r := LoopNext(e, c); r.Some? ==> r.value.nextID == e.nextID
  {
  }

  lemma ExecAllocs(e: Endpoint, inp: seq<Wire.Frame>, a: Action)
    ensures var r := Exec(e, inp, a); r.Some? ==> r.value.nextID == e.nextID + if a == AllocOpen then 2 else 0
  {
    if a.LoopStep? {
      LoopAllocsNothing(e, a.choice);
    }
  }

  lemma {:induction false} NextIdCounts(evs: seq<Event>, s: Side)
    requires Reachable(evs)
    ensures Reached(evs).At(s).nextID == (if s == Server then 1 else 2) + 2 * Allocs(evs, s)
  {
    if evs != [] {
      var init, last := evs[..|evs| - 1], evs[|evs| - 1];
      NextIdCounts(init, s);
      if last.side == s {
        ExecAllocs(Reached(init).At(s), Reached(init).Inbound(s), last.action);
      }
    }
  }

  /** A stream was opened by one of the two sides, under an id that side had reached. */
  lemma IdReached(e: Endpoint, p: Endpoint, i: nat)
    requires EpInv(e, p.sent) && EpInv(p, e.sent) && e.server != p.server && i in e.streams
    ensures i < e.nextID || i < p.nextID
  {
    if !Own(e, i) {
      var v := ViewOf(e, p.sent, i);
      OpenedByPeer(v);
      Wire.TallyMonotone(p.sent, e.rcvd, i);
      Wire.TallyShape(p.sent, i);
      assert i in p.streams;
    }
  }

  lemma OpenedByPeer(v: View)
    requires VInv(v) && !v.own
    ensures v.inn.opens > 0
  {
  }

  /** A frame of a stream is counted for it. */
  lemma Counted(fs: seq<Wire.Frame>, k: nat)
    requires k < |fs| && fs[k].OnStream()
    ensures Wire.Tallied(fs, fs[k].id).frames > 0
  {
    Wire.TallyTake(fs, k, fs[k].id);
    Wire.TallyMonotone(fs, k + 1, fs[k].id);
  }

  /** Each side may open 2^31 - 1 streams before an id would leave 32 bits. */
  predicate FewStreams(evs: seq<Event>) {
    Allocs(evs, Server) < 0x8000_0000 && Allocs(evs, Client) < 0x8000_0000
  }

  lemma BeatId(evs: seq<Event>, s: Side, k: nat)
    requires Reachable(evs) && k < |Reached(evs).At(s).sent| && !Reached(evs).At(s).sent[k].OnStream()
    ensures Reached(evs).At(s).sent[k].id == 0
  {
    BeatsHaveIdZero(evs, s);
  }

  ghost predicate BeatsZero(fs: seq<Wire.Frame>) {
    forall k :: 0 <= k < |fs| && !fs[k].OnStream() ==> fs[k].id == 0
  }

  lemma CallOnStream(st: MuxStream.Stream, i: nat, c: Call, sendOk: bool)
    ensures var r := CallNext(st, i, c, sendOk); r.Some? && r.value.emit.Some? ==> r.value.emit.value.OnStream()
  {
  }

  lemma ExecBeats(e: Endpoint, inp: seq<Wire.Frame>, a: Action)
    requires BeatsZero(e.sent)
    ensures var r := Exec(e, inp, a); r.Some? ==> BeatsZero(r.value.sent)
  {
    if a.LoopStep? {
      LoopSilent(e, a.choice);
    } else if a.StepCall? && a.i in e.streams {
      CallOnStream(e.streams[a.i], a.i, a.call, SendOk(e, a.ok));
    }
  }

  lemma {:induction false} BeatsHaveIdZero(evs: seq<Event>, s: Side)
    requires Reachable(evs)
    ensures BeatsZero(Reached(evs).At(s).sent)
  {
    if evs != [] {
      var init, last := evs[..|evs| - 1], evs[|evs| - 1];
      BeatsHaveIdZero(init, s);
      if last.side == s {
        ExecBeats(Reached(init).At(s), Reached(init).Inbound(s), last.action);
      }
    }
  }

  /** So every id on the wire fits its four bytes. */
  lemma IdsFit(evs: seq<Event>, s: Side, k: nat)
    requires Reachable(evs) && FewStreams(evs) && k < |Reached(evs).At(s).sent|
    ensures Reached(evs).At(s).sent[k].id < FrameCodec.TWO32
  {
    var e, p := Reached(evs).At(s), Reached(evs).At(s.Other());
    if e.sent[k].OnStream() {
      NextIdCounts(evs, s);
      NextIdCounts(evs, s.Other());
      SentIdReached(evs, s, k);
    } else {
      BeatId(evs, s, k);
    }
  }

  lemma SentIdReached(evs: seq<Event>, s: Side, k: nat)
    requires Reachable(evs) && k < |Reached(evs).At(s).sent| && Reached(evs).At(s).sent[k].OnStream()
    ensures var i := Reached(evs).At(s).sent[k].id;
            i < Reached(evs).At(s).nextID || i < Reached(evs).At(s.Other()).nextID
  {
    PairInv(evs, s);
    Counted(Reached(evs).At(s).sent, k);
    IdReached(Reached(evs).At(s), Reached(evs).At(s.Other()), Reached(evs).At(s).sent[k].id);
  }

  // ---- The pipe ----

  lemma FrameBack(f: Wire.Frame)
    requires f.id < FrameCodec.TWO32
    ensures FromRaw(ToRaw(f)) == Some(f)
  {
    assert KindOf(TypeByte(f.kind)) == Some(f.kind);
  }

  /** Where the first frame too long for the reader stands, or the number of frames. */
  function FirstOversize(fs: seq<Wire.Frame>): (k: nat)
    ensures k <= |fs| && (forall j :: 0 <= j < k ==> Fits(fs[j])) && (k < |fs| ==> !Fits(fs[k]))
  {
    if fs == [] || !Fits(fs[0]) then 0 else 1 + FirstOversize(fs[1..])
  }

  lemma Split(fs: seq<Wire.Frame>, k: nat)
    requires k < |fs|
    ensures Raws(fs) == Raws(fs)[..k] + [ToRaw(fs[k])] + Raws(fs)[k + 1..]
  {
  }

  /** With all the bytes there, the reader gets the frames before the first oversize one, then its refusal. */
  lemma FramesEnd(fs: seq<Wire.Frame>)
    requires LengthsFit(fs)
    ensures var k := FirstOversize(fs);
            FrameCodec.DecodeAll(FrameCodec.EncodeAll(Raws(fs)))
            == FrameCodec.Decoding(Raws(fs)[..k], if k < |fs| then FrameCodec.TooBig(|fs[k].payload|) else FrameCodec.Eof)
  {
    var k, raws := FirstOversize(fs), Raws(fs);
    if k < |fs| {
      Split(fs, k);
      FrameCodec.OversizeEnds(raws[..k], ToRaw(fs[k]), raws[k + 1..]);
    } else {
      FrameCodec.DecodeAllEncodeAll(raws, []);
      assert FrameCodec.EncodeAll(raws) + [] == FrameCodec.EncodeAll(raws) && raws + [] == raws && raws[..k] == raws;
    }
  }

  /** With some of them there, a prefix of those. */
  lemma FramesArrive(fs: seq<Wire.Frame>, n: nat)
    requires LengthsFit(fs) && n <= |FrameCodec.EncodeAll(Raws(fs))|
    ensures FrameCodec.DecodeAll(FrameCodec.EncodeAll(Raws(fs))[..n]).frames <= Raws(fs)[..FirstOversize(fs)]
  {
    var k, raws := FirstOversize(fs), Raws(fs);
    if k < |fs| {
      Split(fs, k);
      FrameCodec.CutBeforeOversize(raws[..k], ToRaw(fs[k]), raws[k + 1..], n);
    } else {
      FrameCodec.ArrivedFrames(raws, n);
      assert raws[..k] == raws;
    }
  }

  /** What a reader makes of the first `n` bytes. */
  lemma FramesRead(fs: seq<Wire.Frame>, n: nat)
    requires LengthsFit(fs) && n <= |FrameCodec.EncodeAll(Raws(fs))|
    requires forall k :: 0 <= k < |fs| ==> fs[k].id < FrameCodec.TWO32
    ensures var all := FrameCodec.EncodeAll(Raws(fs));
            var k, got := FirstOversize(fs), FrameCodec.DecodeAll(all[..n]);
            && |got.frames| <= k
            && (forall j :: 0 <= j < |got.frames| ==> FromRaw(got.frames[j]) == Some(fs[j]))
            && (n == |all| ==>
                  && |got.frames| == k
                  && got.end == if k < |fs| then FrameCodec.TooBig(|fs[k].payload|) else FrameCodec.Eof)
  {
    var all := FrameCodec.EncodeAll(Raws(fs));
    FramesArrive(fs, n);
    FramesEnd(fs);
    forall j | 0 <= j < |fs| ensures FromRaw(ToRaw(fs[j])) == Some(fs[j]) {
      FrameBack(fs[j]);
    }
    assert n == |all| ==> all[..n] == all;
  }

  /** The bytes on a socket only grow: each step of a run appends whole frames or nothing. */
  lemma BytesGrow(evs: seq<Event>, more: seq<Event>, s: Side)
    requires Reachable(evs) && Reachable(evs + more)
    ensures BytesOf(Reached(evs), s) <= BytesOf(Reached(evs + more), s)
  {
    MuxTheorems.Grows(evs, more, s);
    var fs, fs' := Reached(evs).At(s).sent, Reached(evs + more).At(s).sent;
    assert Raws(fs') == Raws(fs) + Raws(fs')[|fs|..];
    FrameCodec.EncodeAllAppend(Raws(fs), Raws(fs')[|fs|..]);
  }

  /**
    At any moment of any run, whatever bytes `s` has written by then have reached
    its peer, what the peer's reader makes of them is a prefix of the frames `s`
    has sent, in order and unchanged, up to the first that is too long; with all
    the bytes there it is all of those, then the refusal of that one, if there is
    one; and it stays what it is however the run goes on.
   */
  lemma BytePipe(evs: seq<Event>, more: seq<Event>, s: Side, n: nat)
    requires Reachable(evs) && Reachable(evs + more) && FewStreams(evs) && MetadataShort(evs)
    requires n <= |BytesOf(Reached(evs), s)|
    ensures var fs := Reached(evs).At(s).sent;
            var k, got := FirstOversize(fs), FrameCodec.DecodeAll(BytesOf(Reached(evs), s)[..n]);
            && |got.frames| <= k
            && (forall j :: 0 <= j < |got.frames| ==> FromRaw(got.frames[j]) == Some(fs[j]))
            && (n == |BytesOf(Reached(evs), s)| ==>
                  && |got.frames| == k
                  && got.end == if k < |fs| then FrameCodec.TooBig(|fs[k].payload|) else FrameCodec.Eof)
            && n <= |BytesOf(Reached(evs + more), s)|
            && FrameCodec.DecodeAll(BytesOf(Reached(evs + more), s)[..n]) == got
  {
    AllLengthsFit(evs, s);
    forall k | 0 <= k < |Reached(evs).At(s).sent| ensures Reached(evs).At(s).sent[k].id < FrameCodec.TWO32 {
      IdsFit(evs, s, k);
    }
    FramesRead(Reached(evs).At(s).sent, n);
    BytesGrow(evs, more, s);
    assert BytesOf(Reached(evs + more), s)[..n] == BytesOf(Reached(evs), s)[..n];
  }

  /** What a frame whose write failed leaves behind what went out before. */
  lemma TornFrames(fs: seq<Wire.Frame>, f: FrameCodec.Raw, m: nat)
    requires LengthsFit(fs) && |f.payload| < FrameCodec.TWO32 && m < |FrameCodec.Encode(f)|
    ensures var k := FirstOversize(fs);
            FrameCodec.DecodeAll(FrameCodec.EncodeAll(Raws(fs)) + FrameCodec.Encode(f)[..m])
            == FrameCodec.Decoding(Raws(fs)[..k], if k < |fs| then FrameCodec.TooBig(|fs[k].payload|)
                                                  else FrameCodec.TornEnd(f, m))
  {
    var k, raws, torn := FirstOversize(fs), Raws(fs), FrameCodec.Encode(f)[..m];
    if k < |fs| {
      Split(fs, k);
      FrameCodec.OversizeEndsBytes(raws[..k], ToRaw(fs[k]), raws[k + 1..], torn);
    } else {
      FrameCodec.TornFrame(f, m);
      FrameCodec.DecodeAllEncodeAll(raws, torn);
      assert raws + [] == raws && raws[..k] == raws;
    }
  }

  /**
    After a failed write in any run: the socket holds every frame sent and `m`
    bytes of the one that failed, any of them, and stays so; the peer's reader
    gets the same frames as without them, and the error of the cut unless an
    oversize frame ended it before.
   */
  lemma TornTail(evs: seq<Event>, more: seq<Event>, s: Side, f: FrameCodec.Raw, m: nat)
    requires Reachable(evs) && Reachable(evs + more) && MetadataShort(evs) && Reached(evs).At(s).broken
    requires |f.payload| < FrameCodec.TWO32 && m < |FrameCodec.Encode(f)|
    ensures var fs := Reached(evs).At(s).sent;
            var k := FirstOversize(fs);
            && BytesOf(Reached(evs + more), s) == BytesOf(Reached(evs), s)
            && FrameCodec.DecodeAll(BytesOf(Reached(evs), s) + FrameCodec.Encode(f)[..m])
               == FrameCodec.Decoding(Raws(fs)[..k], if k < |fs| then FrameCodec.TooBig(|fs[k].payload|)
                                                     else FrameCodec.TornEnd(f, m))
            && FrameCodec.DecodeAll(BytesOf(Reached(evs), s)).frames == Raws(fs)[..k]
  {
    AllLengthsFit(evs, s);
    TornFrames(Reached(evs).At(s).sent, f, m);
    FramesEnd(Reached(evs).At(s).sent);
    BrokenIsFinal(evs, more, s);
  }

  lemma LoopBreaksNothing(e: Endpoint, c: Choice)
    ensures var r := LoopNext(e, c); r.Some? ==> r.value.sent == e.sent && r.value.broken == e.broken
  {
  }

  lemma ExecBroken(e: Endpoint, inp: seq<Wire.Frame>, a: Action)
    requires e.broken
    ensures var r := Exec(e, inp, a); r.Some? ==> r.value.sent == e.sent && r.value.broken
  {
    if a.LoopStep? {
      LoopBreaksNothing(e, a.choice);
    }
  }

  /** A direction that has failed stays as it is. */
  lemma {:induction false} BrokenIsFinal(evs: seq<Event>, more: seq<Event>, s: Side)
    requires Reachable(evs) && Reachable(evs + more) && Reached(evs).At(s).broken
    ensures Reached(evs + more).At(s).broken && Reached(evs + more).At(s).sent == Reached(evs).At(s).sent
  {
    if more == [] {
      assert evs + more == evs;
    } else {
      var init, last := more[..|more| - 1], more[|more| - 1];
      assert (evs + more)[..|evs + more| - 1] == evs + init;
      RunSplit(START, evs + init, [last]);
      BrokenIsFinal(evs, init, s);
      if last.side == s {
        ExecBroken(Reached(evs + init).At(s), Reached(evs + init).Inbound(s), last.action);
      }
    }
  }

  /** All frames arrive exactly when every OPEN's metadata fits a frame. */
  lemma AllArriveIffOpensFit(evs: seq<Event>, s: Side)
    requires Reachable(evs) && MetadataShort(evs)
    ensures var fs := Reached(evs).At(s).sent;
            |FrameCodec.DecodeAll(BytesOf(Reached(evs), s)).frames| == |fs|
            <==> forall j :: 0 <= j < |fs| && fs[j].kind == Wire.Open ==> |fs[j].payload| <= 1048576
  {
    AllLengthsFit(evs, s);
    FramesEnd(Reached(evs).At(s).sent);
    PayloadsFit(evs, s);
  }

  /** Opening one stream with metadata `meta` on a new server session. */
  function OpenOne(meta: seq<byte>): seq<Event> {
    [Event(Server, AllocOpen), Event(Server, InsertOpen(1)), Event(Server, SendOpen(1, meta, true))]
  }

  lemma RunNext(evs: seq<Event>, ev: Event)
    requires Reachable(evs)
    ensures Run(START, evs + [ev]) == Next(Reached(evs), ev)
  {
    assert (evs + [ev])[..|evs|] == evs;
  }

  lemma OpenOneRuns(meta: seq<byte>)
    ensures Reachable(OpenOne(meta)) && Reached(OpenOne(meta)).server.sent == [Wire.Frame(Wire.Open, 1, meta)]
  {
    var a, b, c := Event(Server, AllocOpen), Event(Server, InsertOpen(1)), Event(Server, SendOpen(1, meta, true));
    RunNext([], a);
    assert [] + [a] == [a];
    RunNext([a], b);
    assert [a] + [b] == [a, b];
    RunNext([a, b], c);
    assert [a, b] + [c] == OpenOne(meta);
  }

  /** An OPEN can be too long: nothing stops its metadata from being, and then the peer's reader ends there. */
  lemma LongMetadataEndsReader(meta: seq<byte>)
    requires FrameCodec.MAX_PAYLOAD < |meta| < FrameCodec.TWO32
    ensures Reachable(OpenOne(meta))
    ensures FrameCodec.DecodeAll(BytesOf(Reached(OpenOne(meta)), Server))
            == FrameCodec.Decoding([], FrameCodec.TooBig(|meta|))
  {
    OpenOneRuns(meta);
    FramesEnd(Reached(OpenOne(meta)).server.sent);
  }

  /** What a read loop has taken is what the bytes hold: it never gets past an oversize frame. */
  lemma TakenBeforeOversize(evs: seq<Event>, s: Side)
    requires Reachable(evs)
    ensures Reached(evs).At(s).rcvd <= FirstOversize(Reached(evs).Inbound(s))
  {
    MuxDrain.AllTakenFit(evs, s);
  }

  /** A Write never puts an empty or oversize DATA frame on the wire. */
  ghost predicate DataSized(fs: seq<Wire.Frame>) {
    forall k :: 0 <= k < |fs| && fs[k].kind == Wire.Data ==> 0 < |fs[k].payload| <= 1048576
  }

  lemma StepSized(e: Endpoint, inp: seq<Wire.Frame>, a: Action)
    requires DataSized(e.sent)
    ensures var r := Exec(e, inp, a); r.Some? ==> DataSized(r.value.sent)
  {
    if a.LoopStep? {
      LoopSilent(e, a.choice);
    } else if a.StepCall? && a.i in e.streams {
      CallSized(e.streams[a.i], a.i, a.call, SendOk(e, a.ok));
    }
  }

  lemma CallSized(st: MuxStream.Stream, i: nat, c: Call, sendOk: bool)
    ensures var r := CallNext(st, i, c, sendOk);
            r.Some? && r.value.emit.Some? && r.value.emit.value.kind == Wire.Data ==>
              0 < |r.value.emit.value.payload| <= FrameCodec.MAX_PAYLOAD
  {
  }

  /** Chunking, in every run: each DATA frame carries between 1 byte and 1 MiB. */
  lemma {:induction false} ChunksFit(evs: seq<Event>, s: Side)
    requires Reachable(evs)
    ensures DataSized(Reached(evs).At(s).sent)
  {
    if evs != [] {
      var init, last := evs[..|evs| - 1], evs[|evs| - 1];
      ChunksFit(init, s);
      if last.side == s {
        StepSized(Reached(init).At(s), Reached(init).Inbound(s), last.action);
      }
    }
  }
}

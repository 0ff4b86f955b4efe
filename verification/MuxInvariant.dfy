/**
  The session invariant, stated on one stream's view of its endpoint.

  `ViewOf(e, inp, i)` is everything that matters to stream `i`: its own state,
  the tallies of what was sent and received for it, whether the table holds it,
  and where the read loop and shutdown stand if they are on it. A step of the
  endpoint changes the view of the stream it touches and leaves the views of the
  others alone, up to the session-wide flags.
 */
module MuxInvariant {
  import opened Basics
  import opened Wire
  import opened MuxStream
  import opened MuxSession

  datatype ShutOn = NotOn | OnEof | OnSignal

  datatype View = View(
    st: Stream,
    own: bool,
    out: Tally,
    inn: Tally,
    inTable: bool,
    loop: LoopPc,      // LIdle unless the read loop is on this stream
    shutPend: bool,    // shutdown has still to mark this stream
    shutOn: ShutOn,
    closed: bool,
    done: bool,
    broken: bool
  )

  function LoopOn(l: LoopPc, i: nat): bool {
    match l
    case LIdle => false
    case LDead => false
    case LGot(f) => f.OnStream() && f.id == i
    case LCheck(id, _) => id == i
    case LPush(id, _) => id == i
    case LMark(id) => id == i
    case LMarkEof(id) => id == i
    case LBoth(id) => id == i
    case LDrop(id) => id == i
    case RFlag(id) => id == i
    case RMark(id) => id == i
    case REof(id) => id == i
    case RSignal(id) => id == i
    case RRemove(id) => id == i
  }

  function Remaining(s: ShutPc): set<nat> {
    match s
    case SLoop(rem) => rem
    case SEof(_, rem) => rem
    case SSignal(_, rem) => rem
    case SIdle => {}
    case SClosing => {}
    case SDone => {}
  }

  function ShutOnOf(s: ShutPc, i: nat): ShutOn {
    if s.SEof? && s.id == i then OnEof
    else if s.SSignal? && s.id == i then OnSignal
    else NotOn
  }

  function ViewOf(e: Endpoint, inp: seq<Frame>, i: nat): View
    requires i in e.streams && e.rcvd <= |inp|
  {
    View(e.streams[i], Own(e, i), Tallied(e.sent, i), Tallied(inp[..e.rcvd], i), i in e.table,
         if LoopOn(e.loop, i) then e.loop else LIdle,
         i in Remaining(e.shut), ShutOnOf(e.shut, i), e.closed, e.done, e.broken)
  }

  /** The DATA payload the read loop holds and has not pushed yet. */
  function Pending(l: LoopPc): seq<byte> {
    match l
    case LGot(f) => if f.kind == Data then f.payload else []
    case LCheck(_, p) => p
    case LPush(_, p) => p
    case _ => []
  }

  predicate HoldsData(l: LoopPc) {
    (l.LGot? && l.f.kind == Data) || l.LCheck? || l.LPush?
  }

  predicate InReset(l: LoopPc) {
    l.RMark? || l.REof? || l.RSignal? || l.RRemove?
  }

  /** The calls in progress agree with the flags and with what was sent. */
  predicate CallInv(v: View) {
    && (v.st.wr.holder == Closing <==> v.st.wr.closer.CSend?)
    && (v.st.wr.closer.CLock? || v.st.wr.closer.CSend? ==> v.out.closes == 0 && (v.st.wr.closer.peerDone ==> v.st.rd.readDone))
    && (v.st.wr.closer.CRemove? ==> v.st.rd.readDone)
    && (v.st.wr.aborter == ASend ==> v.out.resets == 0)
    && (v.st.wr.aborter == AEof <==> v.st.rd.marker == ByAborter)
    && (v.st.wr.aborter == ASignal || v.st.wr.aborter == ARemove ==> v.st.rd.readDone)
    && (v.st.wr.holder.Sending? ==> v.out.closes == 0 && v.out.trailing == 0)
  }

  /** The DATA sent is the concatenation of the Writes, in lock order. */
  predicate WriteInv(v: View) {
    match v.st.wr.holder
    case Checking(buf, total) => total <= |buf| && v.out.data == Flat(v.st.wr.writes) + buf[..total]
    case Sending(buf, total) => total <= |buf| && v.out.data == Flat(v.st.wr.writes) + buf[..total]
    case _ => v.out.data == Flat(v.st.wr.writes)
  }

  predicate SendInv(v: View) {
    && (!v.st.wr.sentClose ==> v.out.closes == 0 && v.out.resets == 0 && v.st.wr.closer == NoCloser && v.st.wr.aborter == NoAborter)
    && (!v.st.wr.reset ==> v.out.resets == 0 && v.st.wr.aborter == NoAborter)
    && TallyBounds(v.out)
    && (v.out.closes == 0 ==> v.out.late == 0)
    && (v.out.resets == 0 ==> v.out.trailing == 0)
  }

  predicate ReadInv(v: View) {
    && (v.st.rd.readDone <==> v.st.rd.readErr != NoErr)
    && (v.st.rd.readDone <==> v.st.rd.eofClosed || v.st.rd.marker != NoMarker)
    && !(v.st.rd.eofClosed && v.st.rd.marker != NoMarker)
    && (v.st.rd.readErr == SessionClosed ==> v.closed)
    && (v.st.rd.readErr == StreamReset ==> v.st.wr.reset)
    && (v.st.rd.readErr == Eof ==> v.inn.closes > 0 && !v.st.rd.lost && !HoldsData(v.loop))
    && (v.st.rd.aborted ==> v.st.wr.reset || v.closed)
    && (v.st.rd.marker == ByLoop <==> v.loop.LMarkEof? || v.loop.REof?)
    && (v.st.rd.marker == ByShutdown <==> v.shutOn == OnEof)
    && (v.st.rd.reader.RDrain? ==> v.st.rd.readDone && v.st.rd.reader.err == v.st.rd.readErr)
    && (GotEof in v.st.rd.returned ==> v.st.rd.readErr == Eof && v.st.rd.cur == [] && v.st.rd.chunks == [])
    && (GotUnexpectedEof in v.st.rd.returned ==> v.st.rd.readErr == SessionClosed)
    && (GotReset in v.st.rd.returned ==> v.st.rd.readErr == StreamReset)
  }

  /** Everything accepted from the wire and not yet thrown away, in order. */
  function Accepted(rd: Receiver): seq<byte> {
    rd.read + rd.cur + Flat(rd.chunks)
  }

  predicate DeliveryInv(v: View) {
    && |v.st.rd.chunks| <= BUFFER_SLOTS
    && (v.st.rd.cur != [] ==> v.st.rd.reader == RStart)
    && (!v.st.rd.lost ==> Accepted(v.st.rd) + Pending(v.loop) == v.inn.data)
    && (v.st.rd.lost ==> v.st.rd.readDone && Accepted(v.st.rd) <= v.inn.data && !v.loop.LPush?)
  }

  predicate PhaseInv(v: View) {
    && (v.own ==> v.out.opens == (if v.st.phase == Live then 1 else 0) && v.out.early == 0)
    && (!v.own ==> v.st.phase == Live && v.out.opens == 0 && v.inn.opens > 0)
    && (v.st.phase != Live ==>
          v.st.wr == NEW_SENDER && v.out == ZERO && v.inn == ZERO && v.loop == LIdle)
    && (v.inTable ==> v.st.phase != Allocated && v.st.phase != Refused)
    && (v.st.phase == Inserted ==> v.inTable)
    && (v.st.phase == Allocated ==> !v.st.rd.readDone && !v.shutPend && v.shutOn == NotOn)
  }

  /** Registration: who may leave the table, and what shutdown still owes. */
  predicate TableInv(v: View) {
    && (v.st.phase == Live && !v.st.rd.readDone ==> v.inTable)
    && (v.loop.LBoth? || v.loop.LDrop? || v.loop.RSignal? || v.loop.RRemove? ==> v.st.rd.readDone)
    && (v.closed && v.inTable && !v.st.rd.readDone ==> v.shutPend)
    && (v.closed && v.inTable ==> v.shutPend || v.shutOn != NotOn || v.st.rd.aborted)
    && (v.done ==> v.closed && !v.shutPend)
    && (v.shutOn != NotOn ==> v.closed && v.st.rd.readDone)
    && (v.shutPend ==> v.closed)
    && (v.loop.LMark? || v.loop.LMarkEof? || (v.loop.LGot? && v.loop.f.kind == Close) ==> v.inn.closes > 0)
    && (v.loop.LDrop? ==> v.st.wr.sentClose)
    && (InReset(v.loop) || v.loop.RFlag? || (v.loop.LGot? && v.loop.f.kind == Reset) ==> v.inn.resets > 0)
    && (InReset(v.loop) ==> v.st.wr.reset)
    && (v.st.wr.reset ==> v.st.rd.aborted || v.st.wr.aborter.ASend? || v.st.wr.aborter.AMark? || v.st.wr.aborter.AEof?
                          || v.st.wr.aborter.ASignal? || v.loop.RMark? || v.loop.REof? || v.loop.RSignal?)
    && (v.st.wr.reset ==> v.st.rd.readDone || v.st.wr.aborter.ASend? || v.st.wr.aborter.AMark? || v.loop.RMark?)
  }

  predicate CloserOwesRemoval(c: Closer) {
    c.CRemove? || ((c.CLock? || c.CSend?) && c.peerDone)
  }

  predicate OwesFrame(wr: Sender) {
    wr.closer.CLock? || wr.closer.CSend? || wr.aborter == ASend
  }

  predicate LoopOwesRemoval(l: LoopPc) {
    l.LMarkEof? || l.LBoth? || l.LDrop? || InReset(l) || l.RFlag?
  }

  predicate DrainInv(v: View) {
    && (v.inTable && v.inn.resets > 0 ==> (v.loop.LGot? && v.loop.f.kind == Reset) || v.loop.RFlag? || InReset(v.loop))
    && (v.inTable && v.inn.closes > 0 ==> v.st.rd.readDone || (v.loop.LGot? && v.loop.f.kind == Close) || v.loop.LMark?)
    && (v.inTable && v.st.wr.sentClose && v.st.rd.readDone && !v.closed ==>
          CloserOwesRemoval(v.st.wr.closer) || v.st.wr.aborter != NoAborter || LoopOwesRemoval(v.loop))
    && (v.inTable && v.st.wr.reset ==> v.st.wr.aborter != NoAborter || InReset(v.loop))
    && (!v.closed && !v.broken && v.st.wr.sentClose ==>
          v.out.closes > 0 || v.out.resets > 0 || OwesFrame(v.st.wr))
    && (!v.closed && !v.broken && v.st.wr.reset ==>
          v.out.resets > 0 || v.inn.resets > 0 || v.st.wr.aborter == ASend || (v.st.wr.sentClose && v.inn.closes > 0))
  }

  predicate VInv(v: View) {
    && CallInv(v) && WriteInv(v) && SendInv(v) && ReadInv(v) && DeliveryInv(v) && PhaseInv(v) && TableInv(v) && DrainInv(v)
  }

  /** What an endpoint relies on about the frames its peer has sent. */
  ghost predicate PeerOk(e: Endpoint, inp: seq<Frame>) {
    forall i: nat ::
      var t := Tallied(inp, i);
      && TallyBounds(t) && t.opens <= 1
      && (if Own(e, i) then t.opens == 0 && (Tallied(e.sent, i).opens == 0 ==> t.frames == 0) else t.early == 0)
  }

  ghost predicate Base(e: Endpoint, inp: seq<Frame>) {
    && e.rcvd <= |inp|
    && e.nextID > 0
    && Own(e, e.nextID)
    && (forall i :: i in e.table ==> i in e.streams)
    && (forall i :: i in Remaining(e.shut) ==> i in e.streams)
    && (forall i :: i in e.streams && Own(e, i) ==> i < e.nextID)
    && (forall i: nat :: i !in e.streams ==> Tallied(e.sent, i).frames == 0)
    && LoopBase(e, inp)
    && (e.shut.SIdle? <==> !e.closed)
    && (e.done <==> e.shut.SClosing? || e.shut.SDone?)
    && (e.shut.SEof? || e.shut.SSignal? ==> e.shut.id in e.streams)
  }

  ghost predicate LoopBase(e: Endpoint, inp: seq<Frame>)
    requires e.rcvd <= |inp|
  {
    && (e.loop.LGot? && e.loop.f.kind == Open ==>
          && !Own(e, e.loop.f.id) && e.loop.f.id !in e.streams
          && Tallied(inp[..e.rcvd], e.loop.f.id) == Count(ZERO, e.loop.f, e.loop.f.id))
    && (e.loop.LGot? && e.loop.f.OnStream() ==> Tallied(inp[..e.rcvd], e.loop.f.id).frames > 0)
    && (forall i: nat :: LoopOn(e.loop, i) && !e.loop.LGot? ==> i in e.streams)
  }

  ghost predicate EpInv(e: Endpoint, inp: seq<Frame>) {
    && Base(e, inp)
    && forall i :: i in e.streams ==> VInv(ViewOf(e, inp, i))
  }
}

/**
  A session endpoint and every step its goroutines can take.

  Each endpoint keeps the frames it has put on the wire (`sent`) and how many of
  its peer's frames its read loop has taken (`rcvd`), so a FIFO pipe is the part
  of the peer's `sent` past `rcvd`. One write of a frame under the session's
  write lock is one step: the `closed` test and the socket write inside that
  lock commute with every step of another goroutine.
 */
module MuxSession {
  import opened Basics
  import opened Wire
  import opened MuxStream
  import FrameCodec

  /** The read loop: idle, holding a frame, or inside the handling of one. */
  datatype LoopPc =
    | LIdle
    | LGot(f: Frame)
    | LCheck(id: nat, p: seq<byte>)   // pushData: load readDone
    | LPush(id: nat, p: seq<byte>)    // pushData: the select
    | LMark(id: nat)                  // remoteClose: markReadDone
    | LMarkEof(id: nat)
    | LBoth(id: nat)                  // remoteClose: load sentClose
    | LDrop(id: nat)                  // remoteClose: remove
    | RFlag(id: nat)                  // remoteReset, section by section
    | RMark(id: nat)
    | REof(id: nat)
    | RSignal(id: nat)
    | RRemove(id: nat)
    | LDead

  /** shutdown, run by whoever closed first. */
  datatype ShutPc =
    | SIdle
    | SLoop(rem: set<nat>)
    | SEof(id: nat, rem: set<nat>)
    | SSignal(id: nat, rem: set<nat>)
    | SClosing
    | SDone

  datatype Endpoint = Endpoint(
    server: bool,
    nextID: nat,
    table: set<nat>,
    streams: map<nat, Stream>,   // every stream object ever made
    loop: LoopPc,
    shut: ShutPc,
    closed: bool,
    closeErr: nat,               // which error won; meaningful once closed
    done: bool,
    broken: bool,                // the socket no longer accepts writes
    pongs: Option<seq<byte>>,
    sent: seq<Frame>,
    rcvd: nat
  )

  datatype Action =
    | AllocOpen
    | InsertOpen(i: nat)
    | SendOpen(i: nat, meta: seq<byte>, ok: bool)
    | FailOpen(i: nat)
    | StepCall(i: nat, call: Call, ok: bool)
    | CopyOut(i: nat, n: nat)
    | StepRead(i: nat, choice: Choice)
    | LoopRead
    | LoopStep(choice: Choice)
    | LoopFail
    | ShutBegin(err: nat)
    | ShutMark(i: nat)
    | ShutStep
    | SendPing(stamp: seq<byte>, ok: bool)
    | SendPong(ok: bool)

  function NewEndpoint(server: bool): Endpoint {
    Endpoint(server, if server then 1 else 2, {}, map[], LIdle, SIdle, false, 0, false, false, None, [], 0)
  }

  /** Bytes in a PING. */
  const PING_TIMESTAMP: nat := 8

  /** readFrame refuses a longer frame, and the read loop ends with its error. */
  predicate Fits(f: Frame) {
    |f.payload| <= FrameCodec.MAX_PAYLOAD
  }

  predicate Own(e: Endpoint, i: nat) {
    (i % 2 == 1) == e.server
  }

  /** Session.writeFrame: refused once closed; a failed socket write ends the direction. */
  function SendOk(e: Endpoint, ok: bool): bool {
    !e.closed && !e.broken && ok
  }

  function Emit(e: Endpoint, f: Frame, ok: bool): Endpoint {
    if e.closed then e
    else if SendOk(e, ok) then e.(sent := e.sent + [f])
    else e.(broken := true)
  }

  function SetStream(e: Endpoint, i: nat, st: Stream): Endpoint {
    e.(streams := e.streams[i := st])
  }

  function SetRd(e: Endpoint, i: nat, rd: Receiver): Endpoint
    requires i in e.streams
  {
    SetStream(e, i, e.streams[i].(rd := rd))
  }

  /** Apply a stream step's effect to the session. */
  function Apply(e: Endpoint, i: nat, eff: Effect, ok: bool): Endpoint {
    var e1 := if eff.emit.Some? then Emit(e, eff.emit.value, ok) else e;
    SetStream(e1, i, eff.st).(table := if eff.remove then e.table - {i} else e.table)
  }

  /** readLoop's switch on a frame just read. */
  function Dispatch(e: Endpoint, f: Frame): Endpoint {
    var i := f.id;
    match f.kind
    case Open =>
      if e.closed then e.(loop := LIdle)
      else SetStream(e, i, NewStream(Live)).(table := e.table + {i}, loop := LIdle)
    case Data =>
      if i in e.table then e.(loop := LCheck(i, f.payload)) else Lose(e, i)
    case Close => e.(loop := if i in e.table then LMark(i) else LIdle)
    case Reset => e.(loop := if i in e.table then RFlag(i) else LIdle)
    case Ping => e.(loop := LIdle, pongs := if e.pongs.None? then Some(f.payload) else e.pongs)
    case Pong => e.(loop := LIdle)
  }

  /** The DATA in hand is dropped. */
  function Lose(e: Endpoint, i: nat): Endpoint {
    var e1 := e.(loop := LIdle);
    if i in e.streams then SetRd(e1, i, e1.streams[i].rd.(lost := true)) else e1
  }

  /** What handling one frame does to its stream, and where the loop goes next. */
  datatype Handled = Handled(st: Stream, loop: LoopPc, remove: bool)

  /** pushData's select. */
  function PushNext(st: Stream, p: seq<byte>, done: bool, c: Choice): Option<Handled> {
    match c
    case TakeChunk =>
      if |st.rd.chunks| >= BUFFER_SLOTS then None
      else Some(Handled(st.(rd := st.rd.(chunks := st.rd.chunks + [p])), LIdle, false))
    case TakeEof =>
      if st.rd.eofClosed then Some(Handled(st.(rd := st.rd.(lost := true)), LIdle, false)) else None
    case TakeDone =>
      if done then Some(Handled(st.(rd := st.rd.(lost := true)), LIdle, false)) else None
  }

  /** One step of the read loop inside pushData, remoteClose or remoteReset. */
  function HandleNext(l: LoopPc, st: Stream, done: bool, c: Choice): Option<Handled> {
    match l
    case LCheck(i, p) =>
      Some(if st.rd.readDone then Handled(st.(rd := st.rd.(lost := true)), LIdle, false)
           else Handled(st, LPush(i, p), false))
    case LPush(_, p) => PushNext(st, p, done, c)
    case LMark(i) =>
      Some(Handled(st.(rd := MarkReadDone(st.rd, Eof, ByLoop)),
                   if st.rd.readDone then LBoth(i) else LMarkEof(i), false))
    case LMarkEof(i) => Some(Handled(st.(rd := CloseEof(st.rd)), LBoth(i), false))
    case LBoth(i) => Some(Handled(st, if st.wr.sentClose then LDrop(i) else LIdle, false))
    case LDrop(_) => Some(Handled(st, LIdle, true))
    case RFlag(i) => Some(Handled(st.(wr := st.wr.(reset := true)), RMark(i), false))
    case RMark(i) =>
      Some(Handled(st.(rd := MarkReadDone(st.rd, StreamReset, ByLoop)),
                   if st.rd.readDone then RSignal(i) else REof(i), false))
    case REof(i) => Some(Handled(st.(rd := CloseEof(st.rd)), RSignal(i), false))
    case RSignal(i) => Some(Handled(st.(rd := st.rd.(aborted := true)), RRemove(i), false))
    case RRemove(_) => Some(Handled(st, LIdle, true))
    case _ => None
  }

  /** One step of the read loop once it holds a frame. */
  function LoopNext(e: Endpoint, c: Choice): Option<Endpoint> {
    if e.loop.LIdle? || e.loop.LDead? then None
    else if e.loop.LGot? then Some(Dispatch(e, e.loop.f))
    else
      var i := e.loop.id;
      if i !in e.streams then None
      else
        var h := HandleNext(e.loop, e.streams[i], e.done, c);
        if h.None? then None
        else Some(SetStream(e, i, h.value.st)
                  .(loop := h.value.loop, table := if h.value.remove then e.table - {i} else e.table))
  }

  function ShutNext(e: Endpoint): Option<Endpoint> {
    match e.shut
    case SEof(i, rem) =>
      if i !in e.streams then None else Some(SetRd(e, i, CloseEof(e.streams[i].rd)).(shut := SSignal(i, rem)))
    case SSignal(i, rem) =>
      if i !in e.streams then None
      else Some(SetRd(e, i, e.streams[i].rd.(aborted := true)).(shut := SLoop(rem)))
    case SLoop(rem) => if rem != {} then None else Some(e.(done := true, shut := SClosing))
    case SClosing => Some(e.(broken := true, shut := SDone))
    case SIdle => None
    case SDone => None
  }

  /** OpenStream, section by section. */
  function OpenNext(e: Endpoint, a: Action): Option<Endpoint>
    requires a.InsertOpen? || a.SendOpen? || a.FailOpen?
  {
    if a.i !in e.streams then None
    else
      var st := e.streams[a.i];
      match a
      case InsertOpen(i) =>
        if st.phase != Allocated then None
        else if e.closed then Some(SetStream(e, i, st.(phase := Refused)))
        else Some(SetStream(e, i, st.(phase := Inserted)).(table := e.table + {i}))
      case SendOpen(i, meta, ok) =>
        if st.phase != Inserted then None
        else Some(SetStream(Emit(e, Frame(Open, i, meta), ok), i,
                            st.(phase := if SendOk(e, ok) then Live else Failing)))
      case FailOpen(i) =>
        if st.phase != Failing then None
        else Some(SetStream(e, i, st.(phase := Refused)).(table := e.table - {i}))
  }

  /** One step of endpoint `e`, whose peer has put the frames `inp` on the wire. */
  function Exec(e: Endpoint, inp: seq<Frame>, a: Action): Option<Endpoint> {
    match a
    case AllocOpen =>
      Some(SetStream(e, e.nextID, NewStream(Allocated)).(nextID := e.nextID + 2))
    case InsertOpen(_) => OpenNext(e, a)
    case SendOpen(_, _, _) => OpenNext(e, a)
    case FailOpen(_) => OpenNext(e, a)
    case StepCall(i, call, ok) =>
      if i !in e.streams || e.streams[i].phase != Live then None
      else
        var eff := CallNext(e.streams[i], i, call, SendOk(e, ok));
        if eff.None? then None else Some(Apply(e, i, eff.value, ok))
    case CopyOut(i, n) =>
      if i !in e.streams || e.streams[i].phase != Live then None
      else
        var rd := ReadCopy(e.streams[i].rd, n);
        if rd.None? then None else Some(SetRd(e, i, rd.value))
    case StepRead(i, c) =>
      if i !in e.streams || e.streams[i].phase != Live then None
      else
        var rd := ReadNext(e.streams[i].rd, c, e.done);
        if rd.None? then None else Some(SetRd(e, i, rd.value))
    case LoopRead =>
      if e.loop != LIdle || e.rcvd >= |inp| || !Fits(inp[e.rcvd]) then None
      else Some(e.(loop := LGot(inp[e.rcvd]), rcvd := e.rcvd + 1))
    case LoopStep(c) => LoopNext(e, c)
    case LoopFail => if e.loop != LIdle then None else Some(e.(loop := LDead))
    case ShutBegin(err) =>
      if e.closed then None
      else Some(e.(closed := true, closeErr := err, shut := SLoop(e.table)))
    case ShutMark(i) =>
      if !e.shut.SLoop? || i !in e.shut.rem || i !in e.streams then None
      else
        var rem := e.shut.rem - {i};
        Some(SetRd(e, i, MarkReadDone(e.streams[i].rd, SessionClosed, ByShutdown))
             .(shut := if e.streams[i].rd.readDone then SSignal(i, rem) else SEof(i, rem)))
    case ShutStep => ShutNext(e)
    case SendPing(stamp, ok) =>
      if |stamp| != PING_TIMESTAMP then None else Some(Emit(e, Frame(Ping, 0, stamp), ok))
    case SendPong(ok) =>
      if e.pongs.None? then None
      else Some(Emit(e.(pongs := None), Frame(Pong, 0, e.pongs.value), ok))
  }
}

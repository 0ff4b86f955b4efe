/**
  One stream of a session: the fields of `mux.Stream`, the calls in progress on
  it, and every critical section as one step.

  Any number of calls may be in progress. A Write waits for the stream's write
  lock and only its holder has a program counter to keep; a CloseWrite or Abort
  either wins its first section, and is then the stream's only closer or
  aborter, or returns at once. `CallNext` runs the next critical section or the
  next frame write of one call; the single reader and the session's own
  goroutines have their own steps below and in MuxSession.
 */
module MuxStream {
  import opened Basics
  import opened Wire
  import FrameCodec

  const BUFFER_SLOTS: nat := 16

  /** The terminal read error recorded by markReadDone. */
  datatype ReadErr = NoErr | Eof | StreamReset | SessionClosed

  /** What a finished Read returned when it returned no bytes. */
  datatype Outcome = GotEof | GotUnexpectedEof | GotReset

  /** Who holds the stream's write lock, and the holder's next step. */
  datatype Holder =
    | Free
    | Checking(buf: seq<byte>, total: nat)   // Write: test reset and sentClose
    | Sending(buf: seq<byte>, total: nat)    // Write: frame the next chunk
    | Closing                                // CloseWrite: frame the CLOSE

  /** The one CloseWrite that set sentClose, until it returns. */
  datatype Closer = NoCloser | CLock(peerDone: bool) | CSend(peerDone: bool) | CRemove

  /** The one Abort that set reset, until it returns. */
  datatype Aborter = NoAborter | ASend | AMark | AEof | ASignal | ARemove

  datatype ReaderPc = RStart | RDrain(err: ReadErr) | RSelect

  /** Where the stream stands in OpenStream; an inbound stream is born Live. */
  datatype Phase = Allocated | Inserted | Failing | Refused | Live

  /** Who set readDone and still has to close eofCh. */
  datatype Marker = NoMarker | ByAborter | ByLoop | ByShutdown

  /** The inbound half: the chunk buffer, the terminal state and the single reader. */
  datatype Receiver = Receiver(
    readDone: bool,
    readErr: ReadErr,
    eofClosed: bool,
    aborted: bool,
    marker: Marker,
    chunks: seq<seq<byte>>,
    cur: seq<byte>,
    reader: ReaderPc,
    // History that no guard reads.
    read: seq<byte>,            // every byte Read has returned
    returned: set<Outcome>,     // every terminal result Read has returned
    lost: bool                  // some inbound DATA was dropped
  )

  /** The outbound half and the calls in progress on it. */
  datatype Sender = Sender(
    sentClose: bool,
    reset: bool,
    waiting: multiset<seq<byte>>,   // Writes past their first test, not yet holding the lock
    holder: Holder,
    closer: Closer,
    aborter: Aborter,
    // History that no guard reads.
    writes: seq<seq<byte>>      // what each Write that held the lock put on the wire, in order
  ) {
    /** Write's `check`: a reset or closed stream takes no more DATA. */
    predicate Blocked() {
      reset || sentClose
    }
  }

  datatype Stream = Stream(phase: Phase, rd: Receiver, wr: Sender)

  const NEW_RECEIVER := Receiver(false, NoErr, false, false, NoMarker, [], [], RStart, [], {}, false)
  const NEW_SENDER := Sender(false, false, multiset{}, Free, NoCloser, NoAborter, [])

  function NewStream(phase: Phase): Stream {
    Stream(phase, NEW_RECEIVER, NEW_SENDER)
  }

  /** The steps of calls on a live stream. A call that finds nothing to do returns at once. */
  datatype Call =
    | WriteEnter(buf: seq<byte>)
    | WriteLock(buf: seq<byte>)
    | WriteStep
    | CloseEnter
    | CloseStep
    | AbortEnter
    | AbortStep

  /** Result of one step: the stream, the frame it tried to write, and whether it unregisters. */
  datatype Effect = Effect(st: Stream, emit: Option<Frame>, remove: bool)

  /** markReadDone's critical section; only the first caller has an effect. */
  function MarkReadDone(rd: Receiver, err: ReadErr, who: Marker): Receiver {
    if rd.readDone then rd else rd.(readDone := true, readErr := err, marker := who)
  }

  /** close(eofCh), after the section above. */
  function CloseEof(rd: Receiver): Receiver {
    rd.(eofClosed := true, marker := NoMarker)
  }

  /** The next chunk a Write frames. */
  function NextChunk(buf: seq<byte>, total: nat): (n: nat)
    requires total <= |buf|
    ensures total + n <= |buf| && n <= FrameCodec.MAX_PAYLOAD && (n == 0 <==> total == |buf|)
  {
    Min(|buf| - total, FrameCodec.MAX_PAYLOAD)
  }

  /** Write returns: release the lock. */
  function FinishWrite(wr: Sender, buf: seq<byte>, total: nat): Sender
    requires total <= |buf|
  {
    wr.(holder := Free, writes := wr.writes + [buf[..total]])
  }

  /** The DATA frame the lock holder is about to write, if it is about to write one. */
  function NextData(wr: Sender, i: nat): Option<Frame> {
    if wr.holder.Sending? && wr.holder.total < |wr.holder.buf| then
      var n := NextChunk(wr.holder.buf, wr.holder.total);
      Some(Frame(Data, i, wr.holder.buf[wr.holder.total..wr.holder.total + n]))
    else None
  }

  /** The lock holder's next step inside Write; `sendOk` is the fate of its frame. */
  function WriteNext(wr: Sender, sendOk: bool): Option<Sender> {
    match wr.holder
    case Checking(buf, total) =>
      if total > |buf| then None
      else if wr.Blocked() then Some(FinishWrite(wr, buf, total))
      else Some(wr.(holder := Sending(buf, total)))
    case Sending(buf, total) =>
      if total > |buf| then None
      else
        var n := NextChunk(buf, total);
        if n == 0 || !sendOk then Some(FinishWrite(wr, buf, total))
        else if total + n == |buf| then Some(FinishWrite(wr, buf, total + n))
        else Some(wr.(holder := Checking(buf, total + n)))
    case Free => None
    case Closing => None
  }

  function CloseNext(st: Stream, i: nat): Option<Effect> {
    match st.wr.closer
    case NoCloser => None
    case CLock(peerDone) =>
      if st.wr.holder != Free then None
      else Some(Effect(st.(wr := st.wr.(closer := CSend(peerDone), holder := Closing)), None, false))
    case CSend(peerDone) =>
      Some(Effect(st.(wr := st.wr.(closer := if peerDone then CRemove else NoCloser, holder := Free)),
                  Some(Frame(Close, i, [])), false))
    case CRemove => Some(Effect(st.(wr := st.wr.(closer := NoCloser)), None, true))
  }

  function AbortNext(st: Stream, i: nat): Option<Effect> {
    match st.wr.aborter
    case NoAborter => None
    case ASend => Some(Effect(st.(wr := st.wr.(aborter := AMark)), Some(Frame(Reset, i, [])), false))
    case AMark =>
      Some(Effect(st.(rd := MarkReadDone(st.rd, StreamReset, ByAborter),
                      wr := st.wr.(aborter := if st.rd.readDone then ASignal else AEof)), None, false))
    case AEof => Some(Effect(st.(rd := CloseEof(st.rd), wr := st.wr.(aborter := ASignal)), None, false))
    case ASignal =>
      Some(Effect(st.(rd := st.rd.(aborted := true), wr := st.wr.(aborter := ARemove)), None, false))
    case ARemove => Some(Effect(st.(wr := st.wr.(aborter := NoAborter)), None, true))
  }

  /** CloseWrite's first section. */
  function CloseFirst(st: Stream): Sender {
    if st.wr.Blocked() then st.wr else st.wr.(sentClose := true, closer := CLock(st.rd.readDone))
  }

  /** Abort's first section: no RESET once both sides have finished cleanly. */
  function AbortFirst(st: Stream): Sender {
    var finished := st.wr.sentClose && st.rd.readDone && st.rd.readErr == Eof;
    if st.wr.reset then st.wr
    else st.wr.(reset := true, sentClose := true, aborter := if finished then AMark else ASend)
  }

  /** The next step of a call on stream `i`. */
  function CallNext(st: Stream, i: nat, c: Call, sendOk: bool): Option<Effect> {
    match c
    case WriteEnter(buf) =>
      var wr := if st.wr.Blocked() then st.wr else st.wr.(waiting := st.wr.waiting + multiset{buf});
      Some(Effect(st.(wr := wr), None, false))
    case WriteLock(buf) =>
      if st.wr.holder != Free || buf !in st.wr.waiting then None
      else
        var wr := st.wr.(waiting := st.wr.waiting - multiset{buf}, holder := Checking(buf, 0));
        Some(Effect(st.(wr := wr), None, false))
    case WriteStep =>
      var wr := WriteNext(st.wr, sendOk);
      if wr.None? then None else Some(Effect(st.(wr := wr.value), NextData(st.wr, i), false))
    case CloseEnter => Some(Effect(st.(wr := CloseFirst(st)), None, false))
    case CloseStep => CloseNext(st, i)
    case AbortEnter => Some(Effect(st.(wr := AbortFirst(st)), None, false))
    case AbortStep => AbortNext(st, i)
  }

  /** Read's final switch. */
  function Surface(err: ReadErr): Outcome {
    match err
    case NoErr => GotEof
    case Eof => GotEof
    case SessionClosed => GotUnexpectedEof
    case StreamReset => GotReset
  }

  datatype Choice = TakeChunk | TakeEof | TakeDone

  /** Read with bytes left in `cur`: return `n` of them. */
  function ReadCopy(rd: Receiver, n: nat): Option<Receiver> {
    if rd.reader != RStart || |rd.cur| == 0 || n > |rd.cur| then None
    else Some(rd.(read := rd.read + rd.cur[..n], cur := rd.cur[n..]))
  }

  /** Receive the head of the chunk buffer. */
  function Take(rd: Receiver): Receiver
    requires |rd.chunks| > 0
  {
    rd.(cur := rd.chunks[0], chunks := rd.chunks[1..], reader := RStart)
  }

  /** Read with an empty `cur`: load the terminal state, drain, or block in select. */
  function ReadNext(rd: Receiver, c: Choice, done: bool): Option<Receiver> {
    if |rd.cur| > 0 then None
    else match rd.reader
      case RStart =>
        Some(rd.(reader := if rd.readDone then RDrain(rd.readErr) else RSelect))
      case RDrain(err) =>
        if |rd.chunks| > 0 then Some(Take(rd))
        else Some(rd.(reader := RStart, returned := rd.returned + {Surface(err)}))
      case RSelect =>
        match c
        case TakeChunk => if |rd.chunks| > 0 then Some(Take(rd)) else None
        case TakeEof => if rd.eofClosed then Some(rd.(reader := RStart)) else None
        case TakeDone => if done then Some(rd.(reader := RStart)) else None
  }
}

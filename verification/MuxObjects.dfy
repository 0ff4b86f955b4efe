/**
  The stream and session objects as the Go code has them: fields updated in
  place. Each method here runs without interference; a call that changes the
  stream hands back, as a ghost, the steps of the protocol model it performed, so
  the interleaved model and the code agree section by section.
 */
module MuxObjects {
  import opened Basics
  import opened Wire
  import opened MuxStream
  import opened MuxSession
  import FrameCodec

  // ---- Uninterrupted runs of the model's steps ----

  /** A step of a call, and whether the frame it writes, if any, goes out. */
  datatype Step = Step(call: Call, ok: bool)

  datatype Ran = Ran(st: MuxStream.Stream, wrote: seq<Frame>, remove: bool)

  function RunCalls(st: MuxStream.Stream, i: nat, steps: seq<Step>): Option<Ran> {
    if steps == [] then Some(Ran(st, [], false))
    else
      var r := RunCalls(st, i, steps[..|steps| - 1]);
      if r.None? then None else RunCall(r.value, i, steps[|steps| - 1])
  }

  function RunCall(r: Ran, i: nat, s: Step): Option<Ran> {
    var e := CallNext(r.st, i, s.call, s.ok);
    if e.None? then None
    else Some(Ran(e.value.st,
                  if e.value.emit.Some? && s.ok then r.wrote + [e.value.emit.value] else r.wrote,
                  r.remove || e.value.remove))
  }

  lemma RunPush(st: MuxStream.Stream, i: nat, steps: seq<Step>, s: Step)
    ensures var r := RunCalls(st, i, steps);
            RunCalls(st, i, steps + [s]) == if r.None? then None else RunCall(r.value, i, s)
  {
    assert (steps + [s])[..|steps|] == steps;
  }

  /** The read loop handling one frame, from `l` back to idle. */
  function RunLoop(l: LoopPc, st: MuxStream.Stream, done: bool, choices: seq<Choice>): Option<Handled>
    decreases |choices|
  {
    if choices == [] then None
    else
      var h := HandleNext(l, st, done, choices[0]);
      if h.None? then None
      else if h.value.loop == LIdle then (if |choices| == 1 then h else None)
      else
        var r := RunLoop(h.value.loop, h.value.st, done, choices[1..]);
        if r.None? then None else Some(r.value.(remove := h.value.remove || r.value.remove))
  }

  /** markReadDone as a whole. */
  function Ended(rd: Receiver, err: ReadErr): Receiver {
    if rd.readDone then rd else rd.(readDone := true, readErr := err, eofClosed := true)
  }

  /** remoteClose runs to its end: the read side ends, and the stream goes if this side had closed. */
  lemma RemoteCloseRuns(st: MuxStream.Stream, i: nat, done: bool) returns (choices: seq<Choice>)
    requires st.rd.marker == NoMarker
    ensures RunLoop(LMark(i), st, done, choices)
            == Some(Handled(st.(rd := Ended(st.rd, Eof)), LIdle, st.wr.sentClose))
  {
    var c := TakeChunk;
    var st' := st.(rd := Ended(st.rd, Eof));
    choices := if st.wr.sentClose then [c, c] else [c];
    assert st.wr.sentClose ==> [c, c][1..] == [c];
    assert RunLoop(LBoth(i), st', done, choices) == Some(Handled(st', LIdle, st.wr.sentClose));
    if !st.rd.readDone {
      assert ([c] + choices)[1..] == choices;
      choices := [c] + choices;
      assert RunLoop(LMarkEof(i), st'.(rd := MarkReadDone(st.rd, Eof, ByLoop)), done, choices)
          == Some(Handled(st', LIdle, st.wr.sentClose));
    }
    assert ([c] + choices)[1..] == choices;
    choices := [c] + choices;
  }

  /** One step, then the rest. */
  lemma RunLoopThen(l: LoopPc, st: MuxStream.Stream, done: bool, c: Choice, rest: seq<Choice>)
    requires var h := HandleNext(l, st, done, c); h.Some? && h.value.loop != LIdle
    ensures var h := HandleNext(l, st, done, c).value;
            var r := RunLoop(h.loop, h.st, done, rest);
            RunLoop(l, st, done, [c] + rest)
            == if r.None? then None else Some(r.value.(remove := h.remove || r.value.remove))
  {
    assert ([c] + rest)[1..] == rest;
  }

  lemma SignalRuns(st: MuxStream.Stream, i: nat, done: bool) returns (choices: seq<Choice>)
    ensures RunLoop(RSignal(i), st, done, choices) == Some(Handled(st.(rd := st.rd.(aborted := true)), LIdle, true))
  {
    choices := [TakeChunk] + [TakeChunk];
    RunLoopThen(RSignal(i), st, done, TakeChunk, [TakeChunk]);
  }

  /** From remoteReset's markReadDone on. */
  lemma MarkRuns(st: MuxStream.Stream, i: nat, done: bool) returns (choices: seq<Choice>)
    requires st.rd.marker == NoMarker
    ensures RunLoop(RMark(i), st, done, choices)
            == Some(Handled(st.(rd := Ended(st.rd, StreamReset).(aborted := true)), LIdle, true))
  {
    var c := TakeChunk;
    choices := SignalRuns(st.(rd := Ended(st.rd, StreamReset)), i, done);
    if !st.rd.readDone {
      RunLoopThen(REof(i), st.(rd := MarkReadDone(st.rd, StreamReset, ByLoop)), done, c, choices);
      choices := [c] + choices;
    }
    RunLoopThen(RMark(i), st, done, c, choices);
    choices := [c] + choices;
  }

  /** remoteReset runs to its end. */
  lemma RemoteResetRuns(st: MuxStream.Stream, i: nat, done: bool) returns (choices: seq<Choice>)
    requires st.rd.marker == NoMarker
    ensures RunLoop(RFlag(i), st, done, choices) == Some(Handled(ResetEnds(st), LIdle, true))
  {
    var rest := MarkRuns(st.(wr := st.wr.(reset := true)), i, done);
    RunLoopThen(RFlag(i), st, done, TakeChunk, rest);
    choices := [TakeChunk] + rest;
  }

  function ResetEnds(st: MuxStream.Stream): MuxStream.Stream {
    st.(wr := st.wr.(reset := true), rd := Ended(st.rd, StreamReset).(aborted := true))
  }

  // ---- Reading ----

  datatype ReadStep = Copy(n: nat) | Advance(c: Choice)

  function RunRead(rd: Receiver, done: bool, s: ReadStep): Option<Receiver> {
    match s
    case Copy(n) => ReadCopy(rd, n)
    case Advance(c) => ReadNext(rd, c, done)
  }

  function RunReads(rd: Receiver, done: bool, steps: seq<ReadStep>): Option<Receiver> {
    if steps == [] then Some(rd)
    else
      var r := RunReads(rd, done, steps[..|steps| - 1]);
      if r.None? then None else RunRead(r.value, done, steps[|steps| - 1])
  }

  lemma ReadPush(rd: Receiver, done: bool, steps: seq<ReadStep>, s: ReadStep)
    ensures var r := RunReads(rd, done, steps);
            RunReads(rd, done, steps + [s]) == if r.None? then None else RunRead(r.value, done, s)
  {
    assert (steps + [s])[..|steps|] == steps;
  }

  /** Read looks at the terminal state, then takes a chunk. */
  lemma TakeRuns(rd: Receiver, done: bool, steps: seq<ReadStep>, now: Receiver)
    requires RunReads(rd, done, steps) == Some(now) && now.reader == RStart && now.cur == [] && |now.chunks| > 0
    ensures RunReads(rd, done, steps + [Advance(TakeChunk)] + [Advance(TakeChunk)]) == Some(Take(now))
  {
    ReadPush(rd, done, steps, Advance(TakeChunk));
    ReadPush(rd, done, steps + [Advance(TakeChunk)], Advance(TakeChunk));
  }

  /** Or it finds nothing left and returns its terminal result. */
  lemma EndRuns(rd: Receiver, done: bool, steps: seq<ReadStep>, now: Receiver)
    requires RunReads(rd, done, steps) == Some(now) && now.reader == RStart && now.cur == [] && now.chunks == []
    requires now.readDone
    ensures RunReads(rd, done, steps + [Advance(TakeChunk)] + [Advance(TakeChunk)])
            == Some(now.(returned := now.returned + {Surface(now.readErr)}))
  {
    ReadPush(rd, done, steps, Advance(TakeChunk));
    ReadPush(rd, done, steps + [Advance(TakeChunk)], Advance(TakeChunk));
  }

  lemma CopyRuns(rd: Receiver, done: bool, steps: seq<ReadStep>, now: Receiver, n: nat)
    requires RunReads(rd, done, steps) == Some(now) && now.reader == RStart && 0 < |now.cur| && n <= |now.cur|
    ensures RunReads(rd, done, steps + [Copy(n)]) == Some(now.(read := now.read + now.cur[..n], cur := now.cur[n..]))
  {
    ReadPush(rd, done, steps, Copy(n));
  }

  /** A Read as a whole: what becomes of the receiver, and what the call returns. */
  function Reading(rd: Receiver, max: nat): (Receiver, ReadResult)
    decreases |rd.chunks|
  {
    if |rd.cur| > 0 then
      var n := Min(max, |rd.cur|);
      (rd.(read := rd.read + rd.cur[..n], cur := rd.cur[n..]), Bytes(rd.cur[..n]))
    else if |rd.chunks| > 0 then Reading(rd.(cur := rd.chunks[0], chunks := rd.chunks[1..]), max)
    else if rd.readDone then
      (rd.(returned := rd.returned + {Surface(rd.readErr)}), Failed(Surface(rd.readErr)))
    else (rd, WouldBlock)
  }

  /** io.EOF, io.ErrUnexpectedEOF and ErrStreamReset, for the causes they report. */
  predicate IsEnd(err: ReadErr, o: Outcome) {
    && (err == SessionClosed ==> o == GotUnexpectedEof)
    && (err == StreamReset ==> o == GotReset)
    && (err == Eof ==> o == GotEof)
  }

  lemma {:induction false} ReadingRuns(rd: Receiver, done: bool, max: nat) returns (steps: seq<ReadStep>)
    requires rd.reader == RStart
    ensures RunReads(rd, done, steps) == Some(Reading(rd, max).0)
    decreases |rd.chunks|
  {
    steps := [];
    if |rd.cur| > 0 {
      CopyRuns(rd, done, steps, rd, Min(max, |rd.cur|));
      steps := steps + [Copy(Min(max, |rd.cur|))];
    } else if |rd.chunks| > 0 {
      TakeRuns(rd, done, steps, rd);
      var rest := ReadingRuns(Take(rd), done, max);
      steps := steps + [Advance(TakeChunk)] + [Advance(TakeChunk)];
      ReadsThen(rd, done, steps, rest);
      steps := steps + rest;
    } else if rd.readDone {
      EndRuns(rd, done, steps, rd);
      steps := steps + [Advance(TakeChunk)] + [Advance(TakeChunk)];
    }
  }

  lemma {:induction false} ReadsThen(rd: Receiver, done: bool, a: seq<ReadStep>, b: seq<ReadStep>)
    ensures var r := RunReads(rd, done, a); RunReads(rd, done, a + b) == if r.None? then None else RunReads(r.value, done, b)
  {
    if b == [] {
      assert a + b == a;
    } else {
      assert (a + b)[..|a + b| - 1] == a + b[..|b| - 1];
      ReadsThen(rd, done, a, b[..|b| - 1]);
    }
  }

  lemma FirstChunk(read: seq<byte>, cur: seq<byte>, chunks: seq<seq<byte>>)
    requires cur == [] && |chunks| > 0
    ensures read + cur + Flat(chunks) == read + chunks[0] + Flat(chunks[1..])
    ensures cur + Flat(chunks) == chunks[0] + Flat(chunks[1..])
  {
    assert Flat(chunks) == chunks[0] + Flat(chunks[1..]);
  }

  /** Bytes come out in order and none is lost; an end comes only when all are out. */
  lemma {:induction false} ReadingLaws(rd: Receiver, max: nat)
    ensures var (rd', r) := Reading(rd, max);
            && rd'.read + rd'.cur + Flat(rd'.chunks) == rd.read + rd.cur + Flat(rd.chunks)
            && (r.Bytes? ==> rd'.read == rd.read + r.b && |r.b| <= max && (max > 0 ==> r.b != []) && rd'.returned == rd.returned)
            && (r.Failed? ==> rd.readDone && rd'.returned == rd.returned + {r.o} && IsEnd(rd.readErr, r.o))
            && (!r.Bytes? ==> rd'.read == rd.read && rd'.cur == [] && rd'.chunks == [])
            && (r.WouldBlock? <==> !rd.readDone && rd.cur + Flat(rd.chunks) == [])
    decreases |rd.chunks|
  {
    if |rd.cur| > 0 {
      CopyKeeps(rd.read, rd.cur, Min(max, |rd.cur|), Flat(rd.chunks));
    } else if |rd.chunks| > 0 {
      ReadingLaws(rd.(cur := rd.chunks[0], chunks := rd.chunks[1..]), max);
      FirstChunk(rd.read, rd.cur, rd.chunks);
    }
  }

  // ---- Chunking ----

  /** The DATA frames of a Write of `b`. */
  function Chunks(i: nat, b: seq<byte>): (fs: seq<Frame>)
    ensures forall k :: 0 <= k < |fs| ==> fs[k].Is(Data, i) && 0 < |fs[k].payload| <= FrameCodec.MAX_PAYLOAD
  {
    if b == [] then []
    else
      var n := NextChunk(b, 0);
      [Frame(Data, i, b[..n])] + Chunks(i, b[n..])
  }

  function Payloads(fs: seq<Frame>): seq<byte> {
    if fs == [] then [] else fs[0].payload + Payloads(fs[1..])
  }

  /** Nothing is lost or reordered by chunking. */
  lemma {:induction false} ChunksCarry(i: nat, b: seq<byte>)
    ensures Payloads(Chunks(i, b)) == b
  {
    if b != [] {
      var n := NextChunk(b, 0);
      ChunksCarry(i, b[n..]);
      assert b == b[..n] + b[n..];
    }
  }

  /** One more chunk, after whole ones. */
  lemma {:induction false} ChunksPush(i: nat, a: seq<byte>, c: seq<byte>)
    requires |a| % FrameCodec.MAX_PAYLOAD == 0 && 0 < |c| <= FrameCodec.MAX_PAYLOAD
    ensures Chunks(i, a + c) == Chunks(i, a) + [Frame(Data, i, c)]
  {
    var n := NextChunk(a + c, 0);
    if a == [] {
      assert a + c == c && c[..n] == c && c[n..] == [];
    } else {
      assert |a| >= FrameCodec.MAX_PAYLOAD;
      assert (a + c)[..n] == a[..n] && (a + c)[n..] == a[n..] + c;
      ChunksPush(i, a[n..], c);
    }
  }

  /** The next chunk of `b`, and where it ends. */
  lemma ChunksNext(i: nat, b: seq<byte>, t: nat)
    requires t < |b| && t % FrameCodec.MAX_PAYLOAD == 0
    ensures var n := NextChunk(b, t);
            && Chunks(i, b[..t + n]) == Chunks(i, b[..t]) + [Frame(Data, i, b[t..t + n])]
            && (t + n < |b| ==> (t + n) % FrameCodec.MAX_PAYLOAD == 0)
  {
    var n := NextChunk(b, t);
    ChunksPush(i, b[..t], b[t..t + n]);
    assert b[..t + n] == b[..t] + b[t..t + n];
  }

  // ---- Calls, run to their end ----

  predicate AtRest(st: MuxStream.Stream) {
    st.wr.holder == Free && st.wr.closer == NoCloser && st.wr.aborter == NoAborter && st.rd.marker == NoMarker
  }

  lemma BlockedWriteRuns(st: MuxStream.Stream, i: nat, b: seq<byte>) returns (steps: seq<Step>)
    requires st.wr.Blocked()
    ensures RunCalls(st, i, steps) == Some(Ran(st, [], false))
  {
    steps := [Step(WriteEnter(b), true)];
    assert steps[..0] == [];
  }

  function SendingAt(st: MuxStream.Stream, b: seq<byte>, total: nat): MuxStream.Stream {
    st.(wr := st.wr.(holder := Sending(b, total)))
  }

  /** Up to the moment the first frame is framed. */
  lemma WriteBegins(st: MuxStream.Stream, i: nat, b: seq<byte>) returns (steps: seq<Step>)
    requires AtRest(st) && !st.wr.Blocked()
    ensures RunCalls(st, i, steps) == Some(Ran(SendingAt(st, b, 0), [], false))
  {
    var s1, s2, s3 := Step(WriteEnter(b), true), Step(WriteLock(b), true), Step(WriteStep, true);
    assert st.wr.waiting + multiset{b} - multiset{b} == st.wr.waiting;
    RunPush(st, i, [], s1);
    RunPush(st, i, [s1], s2);
    assert [] + [s1] == [s1] && [s1] + [s2] == [s1, s2];
    assert RunCalls(st, i, [s1, s2]) == Some(Ran(st.(wr := st.wr.(holder := Checking(b, 0))), [], false));
    RunPush(st, i, [s1, s2], s3);
    steps := [s1, s2] + [s3];
  }

  /** `total` bytes on the wire, in whole chunks, and more to go. */
  lemma {:induction false} WriteContinues(st: MuxStream.Stream, i: nat, b: seq<byte>, total: nat) returns (steps: seq<Step>)
    requires AtRest(st) && !st.wr.Blocked() && total % FrameCodec.MAX_PAYLOAD == 0 && (total == 0 || total < |b|)
    ensures RunCalls(st, i, steps) == Some(Ran(SendingAt(st, b, total), Chunks(i, b[..total]), false))
  {
    if total == 0 {
      assert b[..0] == [];
      steps := WriteBegins(st, i, b);
    } else {
      var t := total - FrameCodec.MAX_PAYLOAD;
      steps := WriteContinues(st, i, b, t);
      var s := Step(WriteStep, true);
      var sent := Ran(st.(wr := st.wr.(holder := Checking(b, total))), Chunks(i, b[..total]), false);
      FramedNext(st, i, b, t);
      RunPush(st, i, steps, s);
      RunPush(st, i, steps + [s], s);
      steps := steps + [s] + [s];
    }
  }

  /** Framing the chunk at `t` successfully. */
  lemma FramedNext(st: MuxStream.Stream, i: nat, b: seq<byte>, t: nat)
    requires AtRest(st) && t < |b| && t % FrameCodec.MAX_PAYLOAD == 0
    ensures var n := NextChunk(b, t);
            RunCall(Ran(SendingAt(st, b, t), Chunks(i, b[..t]), false), i, Step(WriteStep, true))
            == Some(Ran(st.(wr := if t + n == |b| then st.wr.(writes := st.wr.writes + [b])
                                  else st.wr.(holder := Checking(b, t + n))), Chunks(i, b[..t + n]), false))
  {
    var n := NextChunk(b, t);
    ChunksNext(i, b, t);
    assert t + n == |b| ==> b[..t + n] == b;
  }

  /** A Write that put `total` bytes on the wire and then ended or failed. */
  lemma WriteRuns(st: MuxStream.Stream, i: nat, b: seq<byte>, total: nat) returns (steps: seq<Step>)
    requires AtRest(st) && !st.wr.Blocked() && total <= |b| && (total < |b| ==> total % FrameCodec.MAX_PAYLOAD == 0)
    ensures RunCalls(st, i, steps)
            == Some(Ran(st.(wr := st.wr.(writes := st.wr.writes + [b[..total]])), Chunks(i, b[..total]), false))
  {
    assert b[..|b|] == b;
    if total < |b| || b == [] {
      steps := WriteContinues(st, i, b, total);
      RunPush(st, i, steps, Step(WriteStep, false));
      steps := steps + [Step(WriteStep, false)];
    } else {
      var t := (total - 1) / FrameCodec.MAX_PAYLOAD * FrameCodec.MAX_PAYLOAD;
      steps := WriteContinues(st, i, b, t);
      FramedNext(st, i, b, t);
      RunPush(st, i, steps, Step(WriteStep, true));
      steps := steps + [Step(WriteStep, true)];
    }
  }

  /** Abort as a whole. */
  function AbortEnds(st: MuxStream.Stream): MuxStream.Stream {
    if st.wr.reset then st
    else st.(wr := st.wr.(reset := true, sentClose := true), rd := Ended(st.rd, StreamReset).(aborted := true))
  }

  /** The RESET it writes, unless there is nothing left to reset or the write fails. */
  function AbortWrites(st: MuxStream.Stream, i: nat, ok: bool): seq<Frame> {
    if st.wr.reset || (st.wr.sentClose && st.rd.readDone && st.rd.readErr == Eof) || !ok then []
    else [Frame(Reset, i, [])]
  }

  lemma AbortRuns(st: MuxStream.Stream, i: nat, ok: bool) returns (steps: seq<Step>)
    requires AtRest(st)
    ensures RunCalls(st, i, steps) == Some(Ran(AbortEnds(st), AbortWrites(st, i, ok), !st.wr.reset))
  {
    var s0, s := Step(AbortEnter, true), Step(AbortStep, true);
    RunPush(st, i, [], s0);
    steps := [] + [s0];
    if !st.wr.reset {
      var marking := st.(wr := st.wr.(reset := true, sentClose := true, aborter := AMark));
      var wrote := AbortWrites(st, i, ok);
      if !(st.wr.sentClose && st.rd.readDone && st.rd.readErr == Eof) {
        RunPush(st, i, steps, Step(AbortStep, ok));
        steps := steps + [Step(AbortStep, ok)];
      }
      assert [] + [Frame(Reset, i, [])] == [Frame(Reset, i, [])];
      assert RunCalls(st, i, steps) == Some(Ran(marking, wrote, false));
      steps := AbortTail(st, i, steps, marking, wrote);
    }
  }

  /** From markReadDone on, one step after the other. */
  lemma AbortSteps(m: MuxStream.Stream, i: nat, wrote: seq<Frame>)
    requires m.wr.aborter == AMark && m.rd.marker == NoMarker
    ensures var s, wr, rd := Step(AbortStep, true), m.wr, Ended(m.rd, StreamReset);
            && RunCall(Ran(m, wrote, false), i, s)
               == Some(Ran(if m.rd.readDone then m.(wr := wr.(aborter := ASignal))
                           else m.(wr := wr.(aborter := AEof), rd := MarkReadDone(m.rd, StreamReset, ByAborter)), wrote, false))
            && (!m.rd.readDone ==>
                  RunCall(Ran(m.(wr := wr.(aborter := AEof), rd := MarkReadDone(m.rd, StreamReset, ByAborter)), wrote, false), i, s)
                  == Some(Ran(m.(wr := wr.(aborter := ASignal), rd := rd), wrote, false)))
            && RunCall(Ran(m.(wr := wr.(aborter := ASignal), rd := rd), wrote, false), i, s)
               == Some(Ran(m.(wr := wr.(aborter := ARemove), rd := rd.(aborted := true)), wrote, false))
            && RunCall(Ran(m.(wr := wr.(aborter := ARemove), rd := rd.(aborted := true)), wrote, false), i, s)
               == Some(Ran(m.(wr := wr.(aborter := NoAborter), rd := rd.(aborted := true)), wrote, true))
  {
  }

  lemma AbortTail(st: MuxStream.Stream, i: nat, before: seq<Step>, m: MuxStream.Stream, wrote: seq<Frame>)
    returns (steps: seq<Step>)
    requires RunCalls(st, i, before) == Some(Ran(m, wrote, false))
    requires m.wr.aborter == AMark && m.rd.marker == NoMarker
    ensures RunCalls(st, i, steps)
            == Some(Ran(m.(wr := m.wr.(aborter := NoAborter), rd := Ended(m.rd, StreamReset).(aborted := true)), wrote, true))
  {
    var s := Step(AbortStep, true);
    AbortSteps(m, i, wrote);
    RunPush(st, i, before, s);
    steps := before + [s];
    if !m.rd.readDone {
      RunPush(st, i, steps, s);
      steps := steps + [s];
    }
    RunPush(st, i, steps, s);
    RunPush(st, i, steps + [s], s);
    steps := steps + [s] + [s];
  }

  /** Copying `n` bytes out moves them, and nothing else. */
  lemma CopyKeeps(read: seq<byte>, cur: seq<byte>, n: nat, rest: seq<byte>)
    requires n <= |cur|
    ensures read + cur[..n] + cur[n..] + rest == read + cur + rest == read + (cur + rest)
  {
    assert cur[..n] + cur[n..] == cur;
    assert read + cur[..n] + cur[n..] == read + (cur[..n] + cur[n..]);
  }

  // ---- The objects ----

  /** What a Read comes back with; a Read that would wait is WouldBlock. */
  datatype ReadResult = Bytes(b: seq<byte>) | Failed(o: Outcome) | WouldBlock

  class Session {
    var nextID: nat     // 32 bits wide
    var streams: map<nat, Stream>
    var closed: bool
    var closeErr: nat
    var done: bool
    var sent: seq<Frame>
    var room: nat       // frames the socket will still take
    var pongs: Option<seq<byte>>

    constructor (server: bool, room: nat)
      ensures Valid() && streams == map[] && !closed && !done && sent == [] && this.room == room
      ensures pongs == None && nextID == if server then 1 else 2
    {
      nextID := if server then 1 else 2;
      streams := map[];
      closed, closeErr, done := false, 0, false;
      sent := [];
      this.room := room;
      pongs := None;
    }

    /** Every stream is filed under its own id, so no object is filed twice. */
    ghost predicate Valid()
      reads this, streams.Values
    {
      nextID < FrameCodec.TWO32 && forall i :: i in streams ==> streams[i].id == i && streams[i].sess == this
    }

    method WriteFrame(f: Frame) returns (ok: bool)
      modifies this`sent, this`room
      ensures ok <==> !closed && old(room) > 0
      ensures sent == if ok then old(sent) + [f] else old(sent)
      ensures room == if ok then old(room) - 1 else old(room)
    {
      ok := !closed && room > 0;
      if ok {
        sent := sent + [f];
        room := room - 1;
      }
    }

    method RemoveStream(id: nat)
      modifies this`streams
      ensures streams == old(streams) - {id}
    {
      streams := streams - {id};
    }

    /**
      A stream is handed out only once its OPEN is on the wire, and is then
      registered. Ids wrap around: an entry still filed under the id is replaced,
      or removed if the OPEN fails.
     */
    method OpenStream(meta: seq<byte>) returns (st: Option<Stream>)
      requires Valid()
      modifies this
      ensures Valid() && nextID == (old(nextID) + 2) % FrameCodec.TWO32 && closed == old(closed) && done == old(done)
      ensures st.Some? <==> !closed && old(room) > 0
      ensures st.None? ==>
                && sent == old(sent)
                && streams == if closed then old(streams) else old(streams) - {old(nextID)}
      ensures st.Some? ==>
                && fresh(st.value) && st.value.AsStream() == NewStream(Live) && !st.value.removed
                && streams == old(streams)[old(nextID) := st.value]
                && sent == old(sent) + [Frame(Open, old(nextID), meta)]
    {
      var id := nextID;
      nextID := (nextID + 2) % FrameCodec.TWO32;
      var s := new Stream(id, this);
      if closed {
        return None;
      }
      streams := streams[id := s];
      var ok := WriteFrame(Frame(Open, id, meta));
      if !ok {
        RemoveStream(id);
        return None;
      }
      st := Some(s);
    }

    /** shutdown: only the first close counts; it ends every registered stream before `done` closes. */
    method Shutdown(err: nat)
      requires Valid()
      modifies this`closed, this`closeErr, this`done, streams.Values
      ensures Valid() && closed && (old(closed) ==> closeErr == old(closeErr) && done == old(done))
      ensures !old(closed) ==> closeErr == err && done
      ensures forall i :: i in streams ==>
                var st := streams[i];
                if old(closed) then st.AsStream() == old(st.AsStream())
                else
                  // Over, with the session's end as its cause unless it had one, and told so; nothing buffered is lost.
                  && st.readDone && st.aborted && (st.eofClosed <==> old(st.eofClosed) || !old(st.readDone))
                  && st.readErr == (if old(st.readDone) then old(st.readErr) else SessionClosed)
                  && st.read == old(st.read) && st.cur == old(st.cur) && st.chunks == old(st.chunks)
                  && st.AsStream().wr == old(st.AsStream().wr) && st.returned == old(st.returned)
    {
      if closed {
        return;
      }
      closed, closeErr := true, err;
      EndAll();
      done := true;
    }

    method EndAll()
      requires Valid()
      modifies streams.Values
      ensures Valid()
      ensures forall i :: i in streams ==> streams[i].AsStream() == ShutEnds(old(streams[i].AsStream()))
    {
      var all := streams;
      assert forall i, j :: i in all && j in all && i != j ==> all[i] != all[j];
      var rem := all.Keys;
      while rem != {}
        invariant rem <= all.Keys
        invariant forall i :: i in rem ==> unchanged(all[i])
        invariant forall i :: i in all && i !in rem ==> all[i].AsStream() == ShutEnds(old(all[i].AsStream()))
        decreases |rem|
      {
        var i :| i in rem;
        rem := rem - {i};
        all[i].ShutDown();
      }
    }

    /** The heartbeat's answer to a PING: its own payload. */
    method SendPong() returns (ok: bool)
      modifies this`sent, this`room, this`pongs
      ensures pongs == None
      ensures ok <==> old(pongs).Some? && !closed && old(room) > 0
      ensures sent == if ok then old(sent) + [Frame(Pong, 0, old(pongs).value)] else old(sent)
    {
      ok := false;
      if pongs.Some? {
        var p := pongs.value;
        pongs := None;
        ok := WriteFrame(Frame(Pong, 0, p));
      }
    }

    /** One turn of readLoop; false means the loop waits for a slow reader. */
    method Dispatch(f: Frame) returns (moved: bool)
      requires Valid()
      modifies this`streams, this`pongs, streams.Values
      ensures Valid()
      ensures pongs == if f.kind == Ping && old(pongs) == None then Some(f.payload) else old(pongs)
      ensures f.kind == Open ==>
                if closed then streams == old(streams)
                else f.id in streams && fresh(streams[f.id]) && streams == old(streams)[f.id := streams[f.id]]
                     && streams[f.id].AsStream() == NewStream(Live)
      ensures f.kind != Open && (f.id !in old(streams) || !f.OnStream()) ==> streams == old(streams) && moved
      ensures f.kind == Close && f.id in old(streams) ==>
                var st := old(streams[f.id]);
                && st.AsStream() == old(st.AsStream()).(rd := Ended(old(st.AsStream()).rd, Eof))
                && streams == if old(st.sentClose) && !old(st.removed) then old(streams) - {f.id} else old(streams)
      ensures f.kind == Reset && f.id in old(streams) ==>
                var st := old(streams[f.id]);
                && st.AsStream() == ResetEnds(old(st.AsStream()))
                && streams == if !old(st.removed) then old(streams) - {f.id} else old(streams)
      ensures f.kind == Data && f.id in old(streams) ==>
                var st := old(streams[f.id]);
                streams == old(streams) && st.Pushed(old(st.AsStream()), f.payload, moved)
      ensures forall i :: i in old(streams) && (i != f.id || !f.OnStream() || f.kind == Open) ==>
                old(streams)[i].AsStream() == old(streams[i].AsStream())
    {
      moved := true;
      match f.kind
      case Open =>
        var st := new Stream(f.id, this);
        if !closed {
          streams := streams[f.id := st];
        }
      case Data =>
        if f.id in streams {
          moved := streams[f.id].PushData(f.payload);
        }
      case Close =>
        if f.id in streams {
          var choices := streams[f.id].RemoteClose();
        }
      case Reset =>
        if f.id in streams {
          var choices := streams[f.id].RemoteReset();
        }
      case Ping =>
        if pongs == None {
          pongs := Some(f.payload);
        }
      case Pong =>
    }
  }

  /** What shutdown leaves of a stream. */
  function ShutEnds(st: MuxStream.Stream): MuxStream.Stream {
    st.(rd := Ended(st.rd, SessionClosed).(aborted := true))
  }

  /** Replacing a read half twice. */
  lemma SetRdTwice(e: Endpoint, i: nat, a: Receiver, b: Receiver, s: ShutPc, t: ShutPc)
    requires i in e.streams
    ensures SetRd(SetRd(e, i, a).(shut := s), i, b).(shut := t) == SetRd(e, i, b).(shut := t)
  {
    assert e.streams[i := e.streams[i].(rd := a)][i := e.streams[i].(rd := b)] == e.streams[i := e.streams[i].(rd := b)];
  }

  /** shutdown's markReadDone on stream `i`, eofCh included. */
  lemma ShutMarkRuns(e: Endpoint, inp: seq<Frame>, i: nat)
    requires e.shut.SLoop? && i in e.shut.rem && i in e.streams && e.streams[i].rd.marker == NoMarker
    ensures var marked := Exec(e, inp, ShutMark(i));
            && marked.Some?
            && (if e.streams[i].rd.readDone then marked else ShutNext(marked.value))
               == Some(SetRd(e, i, Ended(e.streams[i].rd, SessionClosed)).(shut := SSignal(i, e.shut.rem - {i})))
  {
    var rd, rem := e.streams[i].rd, e.shut.rem - {i};
    var m := MarkReadDone(rd, SessionClosed, ByShutdown);
    if !rd.readDone {
      SetRdTwice(e, i, m, CloseEof(m), SEof(i, rem), SSignal(i, rem));
      assert CloseEof(m) == Ended(rd, SessionClosed);
    }
  }

  /** And that is what the model's own steps of shutdown do to it, one stream after another. */
  lemma ShutEndsRuns(e: Endpoint, inp: seq<Frame>, i: nat)
    requires e.shut.SLoop? && i in e.shut.rem && i in e.streams && e.streams[i].rd.marker == NoMarker
    ensures var marked := Exec(e, inp, ShutMark(i));
            && marked.Some?
            && var ended := if e.streams[i].rd.readDone then marked else ShutNext(marked.value);
               && ended.Some?
               && ShutNext(ended.value) == Some(SetStream(e, i, ShutEnds(e.streams[i])).(shut := SLoop(e.shut.rem - {i})))
  {
    ShutMarkRuns(e, inp, i);
    ShutSignalRuns(e, i, e.shut.rem - {i}, Ended(e.streams[i].rd, SessionClosed));
  }

  lemma ShutSignalRuns(e: Endpoint, i: nat, rem: set<nat>, rd: Receiver)
    requires i in e.streams
    ensures ShutNext(SetRd(e, i, rd).(shut := SSignal(i, rem)))
         == Some(SetStream(e, i, e.streams[i].(rd := rd.(aborted := true))).(shut := SLoop(rem)))
  {
    SetRdTwice(e, i, rd, rd.(aborted := true), SSignal(i, rem), SLoop(rem));
  }

  class Stream {
    const id: nat
    const sess: Session
    var chunks: seq<seq<byte>>
    var cur: seq<byte>
    var readDone: bool
    var readErr: ReadErr
    var eofClosed: bool
    var aborted: bool
    var sentClose: bool
    var reset: bool
    var removed: bool
    ghost var read: seq<byte>
    ghost var returned: set<Outcome>
    ghost var lost: bool
    ghost var writes: seq<seq<byte>>

    constructor (id: nat, sess: Session)
      ensures this.id == id && this.sess == sess && AsStream() == NewStream(Live) && !removed
    {
      this.id, this.sess := id, sess;
      chunks, cur := [], [];
      readDone, readErr, eofClosed, aborted := false, NoErr, false, false;
      sentClose, reset, removed := false, false, false;
      read, returned, lost, writes := [], {}, false, [];
    }

    /** The stream with nobody in the middle of a call. */
    ghost function AsStream(): MuxStream.Stream
      reads this
    {
      MuxStream.Stream(Live,
        Receiver(readDone, readErr, eofClosed, aborted, NoMarker, chunks, cur, RStart, read, returned, lost),
        Sender(sentClose, reset, multiset{}, Free, NoCloser, NoAborter, writes))
    }

    /** markReadDone. */
    method EndReads(err: ReadErr) returns (won: bool)
      modifies this`readDone, this`readErr, this`eofClosed
      ensures won == !old(readDone)
      ensures readDone && readErr == (if won then err else old(readErr)) && eofClosed == (won || old(eofClosed))
      ensures AsStream() == old(AsStream()).(rd := Ended(old(AsStream()).rd, err))
    {
      if readDone {
        return false;
      }
      readDone, readErr := true, err;
      eofClosed := true;
      won := true;
    }

    method SignalAbort()
      modifies this`aborted
      ensures AsStream() == old(AsStream()).(rd := old(AsStream()).rd.(aborted := true))
    {
      aborted := true;
    }

    /** What shutdown does to each stream. */
    method ShutDown()
      modifies this`readDone, this`readErr, this`eofClosed, this`aborted
      ensures AsStream() == ShutEnds(old(AsStream()))
    {
      var won := EndReads(SessionClosed);
      SignalAbort();
    }

    method Remove()
      modifies this`removed, sess`streams
      ensures removed && sess.streams == if old(removed) then old(sess.streams) else old(sess.streams) - {id}
    {
      if !removed {
        removed := true;
        sess.RemoveStream(id);
      }
    }

    /** pushData delivered, dropped, or would wait, as the model's push does with some choice. */
    ghost predicate Pushed(before: MuxStream.Stream, p: seq<byte>, moved: bool)
      reads this, sess
    {
      if !moved then
        AsStream() == before && !before.rd.readDone && forall c :: PushNext(before, p, sess.done, c).None?
      else
        exists choices :: RunLoop(LCheck(id, p), before, sess.done, choices) == Some(Handled(AsStream(), LIdle, false))
    }

    method PushData(p: seq<byte>) returns (moved: bool)
      modifies this`chunks, this`lost
      ensures moved <==> readDone || |old(chunks)| < 16 || eofClosed || sess.done
      ensures chunks == if !readDone && |old(chunks)| < 16 then old(chunks) + [p] else old(chunks)
      ensures Pushed(old(AsStream()), p, moved)
    {
      ghost var before := AsStream();
      if readDone {
        lost := true;
        assert RunLoop(LCheck(id, p), before, sess.done, [TakeChunk]) == Some(Handled(AsStream(), LIdle, false));
        return true;
      }
      moved := true;
      ghost var c := TakeChunk;
      if |chunks| < BUFFER_SLOTS {
        chunks := chunks + [p];
      } else if eofClosed {
        lost, c := true, TakeEof;
      } else if sess.done {
        lost, c := true, TakeDone;
      } else {
        return false;
      }
      assert [c, c][1..] == [c];
      assert PushNext(before, p, sess.done, c) == Some(Handled(AsStream(), LIdle, false));
      assert RunLoop(LPush(id, p), before, sess.done, [c]) == Some(Handled(AsStream(), LIdle, false));
      assert RunLoop(LCheck(id, p), before, sess.done, [c, c]) == Some(Handled(AsStream(), LIdle, false));
    }

    method RemoteClose() returns (ghost choices: seq<Choice>)
      modifies this`readDone, this`readErr, this`eofClosed, this`removed, sess`streams
      ensures AsStream() == old(AsStream()).(rd := Ended(old(AsStream()).rd, Eof))
      ensures RunLoop(LMark(id), old(AsStream()), sess.done, choices) == Some(Handled(AsStream(), LIdle, old(sentClose)))
      ensures sess.streams == if old(sentClose) && !old(removed) then old(sess.streams) - {id} else old(sess.streams)
    {
      choices := RemoteCloseRuns(AsStream(), id, sess.done);
      var won := EndReads(Eof);
      var both := sentClose;
      if both {
        Remove();
      }
    }

    method RemoteReset() returns (ghost choices: seq<Choice>)
      modifies this`readDone, this`readErr, this`eofClosed, this`aborted, this`reset, this`removed, sess`streams
      ensures AsStream() == ResetEnds(old(AsStream()))
      ensures reset && aborted && readDone && readErr == if old(readDone) then old(readErr) else StreamReset
      ensures RunLoop(RFlag(id), old(AsStream()), sess.done, choices) == Some(Handled(AsStream(), LIdle, true))
      ensures sess.streams == if !old(removed) then old(sess.streams) - {id} else old(sess.streams)
    {
      choices := RemoteResetRuns(AsStream(), id, sess.done);
      reset := true;
      var won := EndReads(StreamReset);
      SignalAbort();
      Remove();
    }

    /** Whatever the buffer size: bytes come out in order and none is lost; an end is reported only when all are out. */
    method Read(max: nat) returns (r: ReadResult, ghost steps: seq<ReadStep>)
      modifies this`cur, this`chunks, this`read, this`returned
      ensures read + cur + Flat(chunks) == old(read + cur + Flat(chunks))
      ensures r.Bytes? ==> read == old(read) + r.b && |r.b| <= max && (max > 0 ==> r.b != []) && returned == old(returned)
      ensures r.Failed? ==> readDone && returned == old(returned) + {r.o} && IsEnd(readErr, r.o)
      ensures !r.Bytes? ==> read == old(read) && cur == [] && chunks == []
      ensures r.WouldBlock? <==> !readDone && old(cur + Flat(chunks)) == []
      ensures RunReads(old(AsStream().rd), sess.done, steps) == Some(AsStream().rd)
    {
      ghost var before := AsStream().rd;
      steps := ReadingRuns(before, sess.done, max);
      ReadingLaws(before, max);
      r := ReadNow(max);
    }

    /** Read's work. */
    method ReadNow(max: nat) returns (r: ReadResult)
      modifies this`cur, this`chunks, this`read, this`returned
      ensures (AsStream().rd, r) == Reading(old(AsStream().rd), max)
    {
      Fill(max);
      if |cur| > 0 {
        var n := Min(max, |cur|);
        r := Bytes(cur[..n]);
        read, cur := read + cur[..n], cur[n..];
      } else if readDone {
        r := Failed(Surface(readErr));
        returned := returned + {r.o};
      } else {
        r := WouldBlock;
      }
    }

    /** The loop of Read: chunks are taken until one has bytes in it. */
    method Fill(ghost max: nat)
      modifies this`cur, this`chunks
      ensures |cur| > 0 || chunks == []
      ensures Reading(AsStream().rd, max) == Reading(old(AsStream().rd), max)
    {
      while |cur| == 0 && chunks != []
        invariant Reading(AsStream().rd, max) == Reading(old(AsStream().rd), max)
        decreases |chunks|
      {
        cur, chunks := chunks[0], chunks[1..];
      }
    }

    /** Write's `check`. */
    method Writable() returns (ok: bool)
      ensures ok == !AsStream().wr.Blocked()
    {
      ok := !(reset || sentClose);
    }

    /** The frames on the wire are the chunks of what Write says it wrote, all of `b` unless it fails. */
    method Write(b: seq<byte>) returns (total: nat, ok: bool, ghost steps: seq<Step>)
      modifies this`writes, sess`sent, sess`room
      ensures total <= |b| && (ok <==> !reset && !sentClose && total == |b|)
      ensures sess.closed ==> total == 0
      ensures sess.sent == old(sess.sent) + Chunks(id, b[..total])
      ensures RunCalls(old(AsStream()), id, steps) == Some(Ran(AsStream(), Chunks(id, b[..total]), false))
    {
      total, ok := 0, false;
      assert b[..0] == [];
      var free := Writable();
      if !free {
        steps := BlockedWriteRuns(AsStream(), id, b);
        return;
      }
      total, ok := SendChunks(b);
      steps := WriteRuns(AsStream(), id, b, total);
      writes := writes + [b[..total]];
    }

    /** Write's loop, holding the stream's write lock. */
    method SendChunks(b: seq<byte>) returns (total: nat, ok: bool)
      modifies sess`sent, sess`room
      ensures total <= |b| && (total < |b| ==> total % FrameCodec.MAX_PAYLOAD == 0)
      ensures ok <==> total == |b|
      ensures sess.closed ==> total == 0
      ensures sess.sent == old(sess.sent) + Chunks(id, b[..total])
    {
      total, ok := 0, true;
      assert b[..0] == [];
      while total < |b| && ok
        invariant total <= |b| && (total < |b| ==> total % FrameCodec.MAX_PAYLOAD == 0)
        invariant !ok ==> total < |b|
        invariant total > 0 ==> !sess.closed
        invariant sess.sent == old(sess.sent) + Chunks(id, b[..total])
        decreases |b| - total, ok
      {
        // Between chunks the code looks at the flags again; alone, it finds them unchanged.
        var n := Min(|b| - total, FrameCodec.MAX_PAYLOAD);
        ok := sess.WriteFrame(Frame(Data, id, b[total..total + n]));
        if ok {
          ChunksNext(id, b, total);
          total := total + n;
        }
      }
    }

    method CloseWrite() returns (ok: bool, ghost steps: seq<Step>)
      modifies this`sentClose, this`removed, sess`sent, sess`room, sess`streams
      ensures old(sentClose || reset) ==> ok && sess.sent == old(sess.sent) && sess.streams == old(sess.streams)
      ensures !old(sentClose || reset) ==>
                && sentClose && (ok <==> !sess.closed && old(sess.room) > 0)
                && sess.streams == if readDone && !old(removed) then old(sess.streams) - {id} else old(sess.streams)
      ensures sentClose || reset
      ensures sess.sent == if !old(sentClose || reset) && ok then old(sess.sent) + [Frame(Close, id, [])] else old(sess.sent)
      ensures var r := RunCalls(old(AsStream()), id, steps);
              && r.Some? && r.value.st == AsStream() && sess.sent == old(sess.sent) + r.value.wrote
              && sess.streams == if r.value.remove && !old(removed) then old(sess.streams) - {id} else old(sess.streams)
    {
      ghost var before := AsStream();
      steps := [Step(CloseEnter, true)];
      RunPush(before, id, [], steps[0]);
      assert [] + [steps[0]] == steps;
      if sentClose || reset {
        return true, steps;
      }
      sentClose := true;
      var peerDone := readDone;
      ok := sess.WriteFrame(Frame(Close, id, []));
      RunPush(before, id, steps, Step(CloseStep, true));
      steps := steps + [Step(CloseStep, true)];
      RunPush(before, id, steps, Step(CloseStep, ok));
      steps := steps + [Step(CloseStep, ok)];
      if peerDone {
        RunPush(before, id, steps, Step(CloseStep, true));
        steps := steps + [Step(CloseStep, true)];
        Remove();
      }
    }

    method Abort() returns (ghost steps: seq<Step>)
      modifies this`sentClose, this`reset, this`readDone, this`readErr, this`eofClosed, this`aborted, this`removed,
               sess`sent, sess`room, sess`streams
      ensures AsStream() == AbortEnds(old(AsStream()))
      ensures !old(reset) ==>
                && reset && sentClose && aborted && readDone
                && readErr == if old(readDone) then old(readErr) else StreamReset
      ensures var finished := old(sentClose && readDone && readErr == Eof);
              sess.sent == if old(reset) || finished || sess.closed || old(sess.room) == 0 then old(sess.sent)
                           else old(sess.sent) + [Frame(Reset, id, [])]
      ensures sess.streams == if old(reset || removed) then old(sess.streams) else old(sess.streams) - {id}
      ensures var r := RunCalls(old(AsStream()), id, steps);
              old(sess.sent) <= sess.sent && r == Some(Ran(AsStream(), sess.sent[|old(sess.sent)|..], !old(reset)))
    {
      ghost var before := AsStream();
      var wrote := EndBoth();
      steps := AbortRuns(before, id, wrote);
    }

    /** Abort's work; true means its RESET went out. */
    method EndBoth() returns (wrote: bool)
      modifies this`sentClose, this`reset, this`readDone, this`readErr, this`eofClosed, this`aborted, this`removed,
               sess`sent, sess`room, sess`streams
      ensures AsStream() == AbortEnds(old(AsStream()))
      ensures sess.streams == if old(reset || removed) then old(sess.streams) else old(sess.streams) - {id}
      ensures sess.sent == old(sess.sent) + AbortWrites(old(AsStream()), id, wrote)
      ensures wrote == (AbortWrites(old(AsStream()), id, true) != [] && !sess.closed && old(sess.room) > 0)
      ensures !old(reset) ==> aborted && readDone && readErr == if old(readDone) then old(readErr) else StreamReset
    {
      wrote := false;
      if reset {
        return;
      }
      var finished := sentClose && readDone && readErr == Eof;
      reset, sentClose := true, true;
      if !finished {
        wrote := sess.WriteFrame(Frame(Reset, id, []));
      }
      var won := EndReads(StreamReset);
      SignalAbort();
      Remove();
    }
  }
}

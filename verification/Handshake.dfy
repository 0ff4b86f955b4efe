/**
  The buffered reader that carries a connection from its handshake line to its
  frames (message.go, and the parts of bufio.Reader and io.ReadFull it uses).
 */
module Handshake {
  import opened Basics
  import opened FrameCodec

  const NEWLINE: byte := 10

  /** bufio.NewReader's buffer size. */
  const BUFFER_SIZE: nat := 4096

  datatype LineErr = LineTooLong | LineCut

  datatype Line = Line(text: seq<byte>, rest: seq<byte>)

  /** What ReadMessage makes of the bytes of a connection: a line that fits the buffer, or an error. */
  function FirstLine(b: seq<byte>): Result<Line, LineErr> {
    var k := IndexOf(b, NEWLINE);
    if k < |b| && k < BUFFER_SIZE then Ok(Line(b[..k + 1], b[k + 1..]))
    else if |b| >= BUFFER_SIZE then Err(LineTooLong)
    else Err(LineCut)
  }

  /** WriteMessage: the encoded message and its newline, in one write. */
  function MessageBytes(json: seq<byte>): seq<byte> {
    json + [NEWLINE]
  }

  /** Exactly the messages that fit the buffer come back; the rest is left untouched. */
  lemma LineRoundTrip(json: seq<byte>, rest: seq<byte>)
    requires NEWLINE !in json
    ensures FirstLine(MessageBytes(json) + rest)
            == if |json| < 4096 then Ok(Line(MessageBytes(json), rest)) else Err(LineTooLong)
  {
    IndexOfFirst(json, NEWLINE, rest);
    var b := MessageBytes(json) + rest;
    assert b[..|json| + 1] == MessageBytes(json) && b[|json| + 1..] == rest;
  }

  /** Without a newline there is no message: too long from 4096 bytes on, cut off before. */
  lemma NoLine(b: seq<byte>)
    requires NEWLINE !in b
    ensures FirstLine(b) == Err(if |b| >= 4096 then LineTooLong else LineCut)
  {
  }

  /** A connection's incoming half behind a bufio.Reader; `arrivals` are the pieces still to come. */
  class Reader {
    var buf: seq<byte>
    var arrivals: seq<seq<byte>>

    constructor (arrivals: seq<seq<byte>>)
      requires forall k :: 0 <= k < |arrivals| ==> arrivals[k] != []
      ensures Valid() && Bytes() == Flat(arrivals)
    {
      buf := [];
      this.arrivals := arrivals;
    }

    ghost predicate Valid()
      reads this
    {
      |buf| <= BUFFER_SIZE && forall k :: 0 <= k < |arrivals| ==> arrivals[k] != []
    }

    /** Everything not yet consumed, in order. */
    ghost function Bytes(): seq<byte>
      reads this
    {
      buf + Flat(arrivals)
    }

    /** One read of the socket: at most `n` bytes, none only at the end. */
    method Receive(n: nat) returns (p: seq<byte>)
      requires Valid() && n > 0
      modifies this`arrivals
      ensures Valid() && |p| <= n && p + Flat(arrivals) == old(Flat(arrivals))
      ensures p == [] <==> old(arrivals) == []
    {
      if arrivals == [] {
        return [];
      }
      var first := arrivals[0];
      if |first| <= n {
        p := first;
        arrivals := arrivals[1..];
      } else {
        p := first[..n];
        arrivals := [first[n..]] + arrivals[1..];
        assert Flat([first[n..]] + old(arrivals)[1..]) == first[n..] + Flat(old(arrivals)[1..]);
        assert first == p + first[n..];
      }
    }

    /** bufio.Reader.ReadSlice('\n'), as ReadMessage uses it. */
    method ReadLine() returns (r: Result<seq<byte>, LineErr>)
      requires Valid()
      modifies this
      ensures Valid()
      ensures match FirstLine(old(Bytes()))
              case Ok(l) => r == Ok(l.text) && Bytes() == l.rest
              case Err(e) => r == Err(e)
    {
      ghost var all := Bytes();
      var s: nat := 0;   // bytes already searched
      while true
        invariant Valid() && Bytes() == all && s <= |buf| && NEWLINE !in buf[..s]
        decreases |Flat(arrivals)|
      {
        var k := s + IndexOf(buf[s..], NEWLINE);
        LineAt(all, buf, s);
        if k < |buf| {
          assert all[..k + 1] == buf[..k + 1];
          r := Ok(buf[..k + 1]);
          buf := buf[k + 1..];
          assert all[k + 1..] == Bytes();
          return;
        }
        if |buf| >= BUFFER_SIZE {
          return Err(LineTooLong);
        }
        s := |buf|;
        var p := Receive(BUFFER_SIZE - |buf|);
        if p == [] {
          return Err(LineCut);
        }
        buf := buf + p;
      }
    }

    /** bufio.Reader.Read: what is buffered, or one read of the socket. */
    method Read(n: nat) returns (p: seq<byte>)
      requires Valid() && n > 0
      modifies this
      ensures Valid() && |p| <= n && p + Bytes() == old(Bytes())
      ensures p == [] <==> old(Bytes()) == []
    {
      if buf == [] {
        if n >= BUFFER_SIZE {
          FlatEmpty(arrivals);
          p := Receive(n);
          return;
        }
        FlatEmpty(arrivals);
        buf := Receive(BUFFER_SIZE);
      }
      var k := Min(n, |buf|);
      p := buf[..k];
      buf := buf[k..];
    }

    /** io.ReadFull. */
    method ReadFull(n: nat) returns (r: Result<seq<byte>, ReadErr>)
      requires Valid()
      modifies this
      ensures Valid()
      ensures if |old(Bytes())| >= n then r == Ok(old(Bytes())[..n]) && Bytes() == old(Bytes())[n..]
              else r == Err(ShortErr(|old(Bytes())|)) && Bytes() == []
    {
      ghost var all := Bytes();
      var got := [];
      while |got| < n
        invariant Valid() && |got| <= n && got + Bytes() == all
        decreases n - |got|
      {
        var p := Read(n - |got|);
        if p == [] {
          return Err(ShortErr(|got|));
        }
        got := got + p;
      }
      r := Ok(got);
    }

    /** readFrame: exactly one frame, however its bytes arrive. */
    method ReadFrame() returns (r: Result<Raw, ReadErr>)
      requires Valid()
      modifies this
      ensures Valid()
      ensures match Decode(old(Bytes()))
              case Ok(d) => r == Ok(d.frame) && Bytes() == d.rest
              case Err(e) => r == Err(e)
    {
      ghost var all := Bytes();
      var h := ReadFull(HEADER_SIZE);
      if h.Err? {
        return Err(h.error);
      }
      var hdr := h.value;
      assert all[1..5] == hdr[1..5] && all[5..9] == hdr[5..9];
      var n := FromBigEndian(hdr[5..9]);
      if n > MAX_PAYLOAD {
        return Err(TooBig(n));
      }
      if n == 0 {
        return Ok(Raw(hdr[0], FromBigEndian(hdr[1..5]), []));
      }
      var p := ReadFull(n);
      if p.Err? {
        return Err(p.error);
      }
      return Ok(Raw(hdr[0], FromBigEndian(hdr[1..5]), p.value));
    }

    /** readLoop's frame supply: every frame until the first error. */
    method ReadFrames() returns (fs: seq<Raw>, end: ReadErr)
      requires Valid()
      modifies this
      ensures Valid() && DecodeAll(old(Bytes())) == Decoding(fs, end)
    {
      ghost var all := Bytes();
      fs := [];
      while true
        invariant Valid()
        invariant DecodeAll(all).frames == fs + DecodeAll(Bytes()).frames && DecodeAll(all).end == DecodeAll(Bytes()).end
        decreases |Bytes()|
      {
        ghost var b := Bytes();
        var r := ReadFrame();
        if r.Err? {
          assert DecodeAll(b) == Decoding([], r.error);
          return fs, r.error;
        }
        assert DecodeAll(b).frames == [r.value] + DecodeAll(Bytes()).frames;
        fs := fs + [r.value];
      }
    }
  }

  lemma FlatEmpty(parts: seq<seq<byte>>)
    requires forall k :: 0 <= k < |parts| ==> parts[k] != []
    ensures Flat(parts) == [] <==> parts == []
  {
    if parts != [] {
      assert Flat(parts) == parts[0] + Flat(parts[1..]);
    }
  }

  /** Searching the unsearched part of the buffer finds the first newline of everything. */
  lemma LineAt(all: seq<byte>, buf: seq<byte>, s: nat)
    requires s <= |buf| && buf <= all && NEWLINE !in buf[..s]
    ensures var k := s + IndexOf(buf[s..], NEWLINE);
            && (k < |buf| ==> IndexOf(all, NEWLINE) == k)
            && (k >= |buf| ==> NEWLINE !in buf && IndexOf(all, NEWLINE) >= |buf|)
  {
    var k := s + IndexOf(buf[s..], NEWLINE);
    var m := IndexOf(all, NEWLINE);
    assert forall j :: 0 <= j < m ==> all[..m][j] == all[j];
    assert forall j :: 0 <= j < s ==> buf[..s][j] == buf[j];
    assert forall j :: s <= j < k ==> buf[j] == buf[s..][..k - s][j - s];
    assert NEWLINE !in buf[..k];
    assert k >= |buf| ==> buf[..k] == buf;
  }

  /**
    The switch from handshake to frames: whatever the pieces the bytes arrive in,
    a message that fits the buffer is read exactly, and the frames after it are
    exactly the frames sent.
   */
  method AcceptAndPump(arrivals: seq<seq<byte>>, ghost json: seq<byte>, ghost frames: seq<Raw>)
    returns (line: seq<byte>, fs: seq<Raw>, end: ReadErr)
    requires forall k :: 0 <= k < |arrivals| ==> arrivals[k] != []
    requires NEWLINE !in json && |json| < BUFFER_SIZE && AllFit(frames)
    requires Flat(arrivals) == MessageBytes(json) + EncodeAll(frames)
    ensures line == MessageBytes(json) && fs == frames && end == Eof
  {
    LineRoundTrip(json, EncodeAll(frames));
    DecodeAllEncodeAll(frames, []);
    assert EncodeAll(frames) + [] == EncodeAll(frames) && frames + [] == frames;
    var br := new Reader(arrivals);
    var r := br.ReadLine();
    line := r.value;
    fs, end := br.ReadFrames();
  }
}

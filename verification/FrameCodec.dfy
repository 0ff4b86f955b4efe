/**
  The 9-byte frame header and its reader and writer (frame.go), over a socket
  that may stop accepting bytes and a reader whose bytes arrive in any pieces.
 */
module FrameCodec {
  import opened Basics

  const HEADER_SIZE: nat := 9
  const MAX_PAYLOAD: nat := 0x10_0000
  const COALESCE_MAX: nat := 0x1_0000
  const TWO32: nat := 0x1_0000_0000

  type uint32 = n: int | 0 <= n < 0x1_0000_0000

  datatype Raw = Raw(typ: byte, id: uint32, payload: seq<byte>)

  /** binary.BigEndian.PutUint32. */
  function BigEndian(n: uint32): (r: seq<byte>)
    ensures |r| == 4
  {
    [n / 0x100_0000, n / 0x1_0000 % 0x100, n / 0x100 % 0x100, n % 0x100]
  }

  /** binary.BigEndian.Uint32. */
  function FromBigEndian(b: seq<byte>): uint32
    requires |b| == 4
  {
    (b[0] as int) * 0x100_0000 + (b[1] as int) * 0x1_0000 + (b[2] as int) * 0x100 + b[3]
  }

  lemma BigEndianRoundTrip(n: uint32)
    ensures FromBigEndian(BigEndian(n)) == n
  {
    var a, b := n / 0x100, n / 0x1_0000;
    assert n == a * 0x100 + n % 0x100;
    assert a / 0x100 == b && a == b * 0x100 + a % 0x100;
    assert b / 0x100 == n / 0x100_0000 && b == (b / 0x100) * 0x100 + b % 0x100;
  }

  /** The length goes out as uint32(n). */
  function Header(typ: byte, id: uint32, n: nat): (r: seq<byte>)
    ensures |r| == HEADER_SIZE
  {
    [typ] + BigEndian(id) + BigEndian(n % TWO32)
  }

  function Encode(f: Raw): seq<byte> {
    Header(f.typ, f.id, |f.payload|) + f.payload
  }

  /** Four bytes, most significant first. */
  lemma BigEndianBytes(n: uint32)
    ensures var b := BigEndian(n);
            n == (b[0] as int) * 0x100_0000 + (b[1] as int) * 0x1_0000 + (b[2] as int) * 0x100 + b[3]
  {
    BigEndianRoundTrip(n);
  }

  /** Byte for byte: the type, then id and length. */
  lemma HeaderLayout(typ: byte, id: uint32, n: uint32)
    ensures Header(typ, id, n) == [typ] + BigEndian(id) + BigEndian(n) && |Header(typ, id, n)| == 9
  {
  }

  /** A frame is its header and its payload, and the reader's limit is 1 MiB. */
  lemma FrameLayout(f: Raw)
    ensures Encode(f) == Header(f.typ, f.id, |f.payload|) + f.payload && (Fits(f) <==> |f.payload| <= 1048576)
  {
  }

  function EncodeAll(fs: seq<Raw>): seq<byte> {
    if fs == [] then [] else Encode(fs[0]) + EncodeAll(fs[1..])
  }

  /** io.EOF is also what a cut right after a header reads as. */
  datatype ReadErr = Eof | UnexpectedEof | TooBig(n: nat)

  datatype Decoded = Decoded(frame: Raw, rest: seq<byte>)

  /** io.ReadFull's error when only `got` bytes came. */
  function ShortErr(got: nat): ReadErr {
    if got == 0 then Eof else UnexpectedEof
  }

  function Decode(b: seq<byte>): Result<Decoded, ReadErr> {
    if |b| < HEADER_SIZE then Err(ShortErr(|b|))
    else
      var n := FromBigEndian(b[5..9]);
      var rest := b[HEADER_SIZE..];
      if n > MAX_PAYLOAD then Err(TooBig(n))
      else if |rest| < n then Err(ShortErr(|rest|))
      else Ok(Decoded(Raw(b[0], FromBigEndian(b[1..5]), rest[..n]), rest[n..]))
  }

  datatype Decoding = Decoding(frames: seq<Raw>, end: ReadErr)

  /** Every frame a read loop gets out of `b`, and the error that ends it. */
  function DecodeAll(b: seq<byte>): Decoding
    decreases |b|
  {
    match Decode(b)
    case Err(e) => Decoding([], e)
    case Ok(d) =>
      var s := DecodeAll(d.rest);
      Decoding([d.frame] + s.frames, s.end)
  }

  predicate Fits(f: Raw) {
    |f.payload| <= MAX_PAYLOAD
  }

  ghost predicate AllFit(fs: seq<Raw>) {
    forall k :: 0 <= k < |fs| ==> Fits(fs[k])
  }

  /** One frame comes back exactly, and nothing after it is consumed. */
  lemma DecodeEncode(f: Raw, rest: seq<byte>)
    requires Fits(f)
    ensures Decode(Encode(f) + rest) == Ok(Decoded(f, rest))
  {
    var b := Encode(f) + rest;
    var h := Header(f.typ, f.id, |f.payload|);
    assert b == h + (f.payload + rest);
    assert b[1..5] == BigEndian(f.id) && b[5..9] == BigEndian(|f.payload|);
    BigEndianRoundTrip(f.id);
    BigEndianRoundTrip(|f.payload|);
    assert b[HEADER_SIZE..] == f.payload + rest;
  }

  /** A frame too long for the reader is refused, whatever follows it. */
  lemma OversizeRefused(f: Raw, rest: seq<byte>)
    requires MAX_PAYLOAD < |f.payload| < TWO32
    ensures Decode(Encode(f) + rest) == Err(TooBig(|f.payload|))
  {
    var b := Encode(f) + rest;
    assert b == Header(f.typ, f.id, |f.payload|) + (f.payload + rest);
    assert b[5..9] == BigEndian(|f.payload|);
    BigEndianRoundTrip(|f.payload|);
  }

  /** A frame cut anywhere is an error, never a shorter frame. */
  lemma CutIsError(f: Raw, k: nat)
    requires Fits(f) && k < |Encode(f)|
    ensures Decode(Encode(f)[..k]) == Err(ShortErr(if k < HEADER_SIZE then k else k - HEADER_SIZE))
  {
    var b := Encode(f)[..k];
    if k >= HEADER_SIZE {
      var h := Header(f.typ, f.id, |f.payload|);
      assert b == h + f.payload[..k - HEADER_SIZE];
      assert b[5..9] == BigEndian(|f.payload|);
      BigEndianRoundTrip(|f.payload|);
    }
  }

  /** Written out: io.EOF between frames and right behind a header, io.ErrUnexpectedEOF inside either part. */
  lemma CutErrors(f: Raw, k: nat)
    requires Fits(f) && k < |Encode(f)|
    ensures Decode(Encode(f)[..k]) == Err(if k == 0 || k == 9 then Eof else UnexpectedEof)
  {
    CutIsError(f, k);
  }

  lemma DecodeAllStep(f: Raw, rest: seq<byte>)
    requires Fits(f)
    ensures var s := DecodeAll(rest); DecodeAll(Encode(f) + rest) == Decoding([f] + s.frames, s.end)
  {
    DecodeEncode(f, rest);
  }

  lemma EncodeAllFirst(fs: seq<Raw>, tail: seq<byte>)
    requires fs != []
    ensures EncodeAll(fs) + tail == Encode(fs[0]) + (EncodeAll(fs[1..]) + tail)
  {
  }

  /** Any sequence of frames, cut anywhere: the whole frames come back, then an error. */
  lemma {:induction false} DecodeAllEncodeAll(fs: seq<Raw>, tail: seq<byte>)
    requires AllFit(fs)
    ensures DecodeAll(EncodeAll(fs) + tail) == Decoding(fs + DecodeAll(tail).frames, DecodeAll(tail).end)
  {
    var s := DecodeAll(tail);
    if fs == [] {
      assert EncodeAll(fs) + tail == tail;
    } else {
      var rest := EncodeAll(fs[1..]) + tail;
      calc {
        DecodeAll(EncodeAll(fs) + tail);
        { EncodeAllFirst(fs, tail); }
        DecodeAll(Encode(fs[0]) + rest);
        { DecodeAllStep(fs[0], rest); }
        Decoding([fs[0]] + DecodeAll(rest).frames, DecodeAll(rest).end);
        { DecodeAllEncodeAll(fs[1..], tail); }
        Decoding([fs[0]] + (fs[1..] + s.frames), s.end);
        { assert [fs[0]] + (fs[1..] + s.frames) == fs + s.frames; }
        Decoding(fs + s.frames, s.end);
      }
    }
  }

  /** The codec round-trips every sequence; a stream ending inside a frame loses only that frame. */
  lemma StreamRoundTrip(fs: seq<Raw>, f: Raw, k: nat)
    requires AllFit(fs) && Fits(f) && k < |Encode(f)|
    ensures DecodeAll(EncodeAll(fs)) == Decoding(fs, Eof)
    ensures DecodeAll(EncodeAll(fs) + Encode(f)[..k])
            == Decoding(fs, ShortErr(if k < HEADER_SIZE then k else k - HEADER_SIZE))
  {
    DecodeAllEncodeAll(fs, []);
    assert EncodeAll(fs) + [] == EncodeAll(fs) && fs + [] == fs;
    CutIsError(f, k);
    DecodeAllEncodeAll(fs, Encode(f)[..k]);
  }

  lemma TakePast(a: seq<byte>, b: seq<byte>, k: nat)
    requires |a| <= k <= |a| + |b|
    ensures (a + b)[..k] == a + b[..k - |a|]
  {
  }

  lemma TakeWithin(a: seq<byte>, b: seq<byte>, k: nat)
    requires k <= |a|
    ensures (a + b)[..k] == a[..k]
  {
  }

  /** What the first `k` bytes hold, the first frame being whole or not. */
  lemma ArrivedFirst(f: Raw, rest: seq<byte>, k: nat)
    requires Fits(f) && k <= |Encode(f)| + |rest|
    ensures DecodeAll((Encode(f) + rest)[..k]).frames
            == if k < |Encode(f)| then [] else [f] + DecodeAll(rest[..k - |Encode(f)|]).frames
  {
    if k < |Encode(f)| {
      TakeWithin(Encode(f), rest, k);
      CutIsError(f, k);
    } else {
      TakePast(Encode(f), rest, k);
      DecodeAllStep(f, rest[..k - |Encode(f)|]);
    }
  }

  /** However many bytes have arrived, the frames they hold are the first frames sent. */
  lemma {:induction false} ArrivedFrames(fs: seq<Raw>, k: nat)
    requires AllFit(fs) && k <= |EncodeAll(fs)|
    ensures DecodeAll(EncodeAll(fs)[..k]).frames <= fs
    ensures k == |EncodeAll(fs)| ==> DecodeAll(EncodeAll(fs)[..k]).frames == fs
  {
    if fs == [] {
      NothingArrived();
    } else {
      var n := |Encode(fs[0])|;
      ArrivedFirst(fs[0], EncodeAll(fs[1..]), k);
      if n <= k {
        ArrivedFrames(fs[1..], k - n);
        assert fs == [fs[0]] + fs[1..];
      }
    }
  }

  lemma NothingArrived()
    ensures DecodeAll([]) == Decoding([], Eof)
  {
  }

  lemma {:induction false} EncodeAllAppend(a: seq<Raw>, b: seq<Raw>)
    ensures EncodeAll(a + b) == EncodeAll(a) + EncodeAll(b)
  {
    if a == [] {
      assert a + b == b;
    } else {
      assert (a + b)[1..] == a[1..] + b;
      EncodeAllAppend(a[1..], b);
    }
  }

  /** Whole frames, then one too long for the reader: it ends there, whatever follows. */
  lemma OversizeEnds(a: seq<Raw>, f: Raw, b: seq<Raw>)
    requires AllFit(a) && MAX_PAYLOAD < |f.payload| < TWO32
    ensures DecodeAll(EncodeAll(a + [f] + b)) == Decoding(a, TooBig(|f.payload|))
  {
    OversizeEndsBytes(a, f, b, []);
    assert EncodeAll(a + [f] + b) + [] == EncodeAll(a + [f] + b);
  }

  /** No cut of `tail` holds a frame. */
  ghost predicate Barren(tail: seq<byte>) {
    forall n :: 0 <= n <= |tail| ==> DecodeAll(tail[..n]).frames == []
  }

  lemma FirstThenPrefix(a: seq<Raw>, fs: seq<Raw>)
    requires a != [] && fs <= a[1..]
    ensures [a[0]] + fs <= a
  {
    assert a == [a[0]] + a[1..];
  }

  lemma BarrenCut(tail: seq<byte>, k: nat)
    requires Barren(tail) && k <= |tail|
    ensures DecodeAll(tail[..k]).frames == []
  {
  }

  /** However many bytes have arrived, no frame from an oversize one on comes out. */
  lemma {:induction false} ArrivedBefore(a: seq<Raw>, tail: seq<byte>, k: nat)
    requires AllFit(a) && k <= |EncodeAll(a) + tail| && Barren(tail)
    ensures DecodeAll((EncodeAll(a) + tail)[..k]).frames <= a
  {
    if a == [] {
      assert EncodeAll(a) + tail == tail;
      BarrenCut(tail, k);
    } else {
      var n, rest := |Encode(a[0])|, EncodeAll(a[1..]) + tail;
      EncodeAllFirst(a, tail);
      ArrivedFirst(a[0], rest, k);
      if n <= k {
        ArrivedBefore(a[1..], tail, k - n);
        FirstThenPrefix(a, DecodeAll(rest[..k - n]).frames);
      }
    }
  }

  /** A cut oversize frame yields nothing either. */
  lemma OversizeYieldsNothing(f: Raw, rest: seq<byte>, n: nat)
    requires MAX_PAYLOAD < |f.payload| < TWO32 && n <= |Encode(f) + rest|
    ensures DecodeAll((Encode(f) + rest)[..n]).frames == []
  {
    var b := (Encode(f) + rest)[..n];
    if n >= HEADER_SIZE {
      var tail := (f.payload + rest)[..n - HEADER_SIZE];
      assert b == Header(f.typ, f.id, |f.payload|) + tail;
      LongLengthRefused(f.typ, f.id, |f.payload|, tail);
    }
  }

  lemma HeaderLength(typ: byte, id: uint32, n: nat)
    requires n < TWO32
    ensures FromBigEndian(Header(typ, id, n)[5..9]) == n
  {
    assert Header(typ, id, n)[5..9] == BigEndian(n);
    BigEndianRoundTrip(n);
  }

  lemma LongLengthRefused(typ: byte, id: uint32, n: nat, tail: seq<byte>)
    requires MAX_PAYLOAD < n < TWO32
    ensures Decode(Header(typ, id, n) + tail) == Err(TooBig(n))
  {
    var h := Header(typ, id, n);
    HeaderLength(typ, id, n);
    RefusedByLength(h, tail, n);
  }

  lemma RefusedByLength(h: seq<byte>, tail: seq<byte>, n: nat)
    requires |h| == HEADER_SIZE && FromBigEndian(h[5..9]) == n > MAX_PAYLOAD
    ensures Decode(h + tail) == Err(TooBig(n))
  {
    assert (h + tail)[5..9] == h[5..9];
  }

  /** Whole frames, then one too long, cut anywhere: nothing but the whole frames comes out. */
  lemma CutBeforeOversize(a: seq<Raw>, f: Raw, b: seq<Raw>, n: nat)
    requires AllFit(a) && MAX_PAYLOAD < |f.payload| < TWO32 && n <= |EncodeAll(a + [f] + b)|
    ensures DecodeAll(EncodeAll(a + [f] + b)[..n]).frames <= a
  {
    var tail := Encode(f) + EncodeAll(b);
    assert a + [f] + b == a + ([f] + b) && ([f] + b)[1..] == b;
    EncodeAllAppend(a, [f] + b);
    forall m | 0 <= m <= |tail| ensures DecodeAll(tail[..m]).frames == [] {
      OversizeYieldsNothing(f, EncodeAll(b), m);
    }
    ArrivedBefore(a, tail, n);
  }

  /** How a reader ends in the first `m` bytes of a frame. */
  function TornEnd(f: Raw, m: nat): ReadErr {
    if m < HEADER_SIZE then ShortErr(m)
    else if |f.payload| > MAX_PAYLOAD then TooBig(|f.payload|)
    else ShortErr(m - HEADER_SIZE)
  }

  /** A frame cut short, oversize or not, yields nothing but an error. */
  lemma TornFrame(f: Raw, m: nat)
    requires |f.payload| < TWO32 && m < |Encode(f)|
    ensures DecodeAll(Encode(f)[..m]) == Decoding([], TornEnd(f, m))
  {
    if Fits(f) {
      CutIsError(f, m);
    } else if m >= HEADER_SIZE {
      var tail := f.payload[..m - HEADER_SIZE];
      assert Encode(f)[..m] == Header(f.typ, f.id, |f.payload|) + tail;
      LongLengthRefused(f.typ, f.id, |f.payload|, tail);
    }
  }

  /** Whole frames, then an oversize one: any bytes may follow. */
  lemma OversizeEndsBytes(a: seq<Raw>, f: Raw, b: seq<Raw>, tail: seq<byte>)
    requires AllFit(a) && MAX_PAYLOAD < |f.payload| < TWO32
    ensures DecodeAll(EncodeAll(a + [f] + b) + tail) == Decoding(a, TooBig(|f.payload|))
  {
    var rest := Encode(f) + (EncodeAll(b) + tail);
    assert a + [f] + b == a + ([f] + b) && ([f] + b)[1..] == b;
    EncodeAllAppend(a, [f] + b);
    assert EncodeAll(a + [f] + b) + tail == EncodeAll(a) + rest;
    OversizeRefused(f, EncodeAll(b) + tail);
    assert DecodeAll(rest) == Decoding([], TooBig(|f.payload|));
    DecodeAllEncodeAll(a, rest);
    assert a + [] == a;
  }

  /** A socket's outgoing half: it accepts `limit` bytes in all, then every write fails. */
  class Sink {
    var data: seq<byte>
    const limit: nat

    constructor (limit: nat)
      ensures data == [] && this.limit == limit
    {
      data := [];
      this.limit := limit;
    }

    ghost predicate Valid()
      reads this
    {
      |data| <= limit
    }

    method Write(p: seq<byte>) returns (ok: bool)
      requires Valid()
      modifies this
      ensures Valid()
      ensures ok <==> |old(data)| + |p| <= limit
      ensures ok ==> data == old(data) + p
      ensures !ok ==> data == (old(data) + p)[..limit]
    {
      ok := |data| + |p| <= limit;
      if ok {
        data := data + p;
      } else {
        data := data + p[..limit - |data|];
      }
    }
  }

  method PutHeader(b: array<byte>, typ: byte, id: uint32, n: nat)
    requires b.Length >= HEADER_SIZE
    modifies b
    ensures b[..HEADER_SIZE] == Header(typ, id, n)
    ensures b[HEADER_SIZE..] == old(b[HEADER_SIZE..])
  {
    var i, m := BigEndian(id), BigEndian(n % TWO32);
    b[0] := typ;
    b[1], b[2], b[3], b[4] := i[0], i[1], i[2], i[3];
    b[5], b[6], b[7], b[8] := m[0], m[1], m[2], m[3];
  }

  /**
    Both ways of writing a frame, in one Write or in two, put the same bytes on
    the socket; a failing socket keeps a prefix of them.
   */
  method WriteFrame(w: Sink, typ: byte, id: uint32, payload: seq<byte>) returns (ok: bool)
    requires w.Valid()
    modifies w
    ensures w.Valid()
    ensures ok <==> |old(w.data)| + HEADER_SIZE + |payload| <= w.limit
    ensures ok ==> w.data == old(w.data) + Encode(Raw(typ, id, payload))
    ensures !ok ==> w.data == (old(w.data) + Encode(Raw(typ, id, payload)))[..w.limit]
  {
    ghost var was, h := w.data, Header(typ, id, |payload|);
    if |payload| <= COALESCE_MAX {
      var buf := new byte[HEADER_SIZE + |payload|](_ => 0);
      PutHeader(buf, typ, id, |payload|);
      for k := 0 to |payload|
        invariant w.data == was && buf[..HEADER_SIZE] == h
        invariant buf[HEADER_SIZE..HEADER_SIZE + k] == payload[..k]
      {
        buf[HEADER_SIZE + k] := payload[k];
        assert buf[HEADER_SIZE..HEADER_SIZE + k + 1] == buf[HEADER_SIZE..HEADER_SIZE + k] + [payload[k]];
      }
      assert buf[..] == h + payload;
      ok := w.Write(buf[..]);
      return;
    }
    var hdr := new byte[HEADER_SIZE](_ => 0);
    PutHeader(hdr, typ, id, |payload|);
    assert hdr[..] == h;
    ok := w.Write(hdr[..]);
    if !ok {
      assert (was + h)[..w.limit] == (was + (h + payload))[..w.limit];
      return;
    }
    assert (was + h) + payload == was + (h + payload);
    ok := w.Write(payload);
  }
}

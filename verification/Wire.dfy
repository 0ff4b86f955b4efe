/**
  Frames as the multiplexer sees them, and what one stream's frames add up to.

  `Tallied(fs, i)` folds a frame history into counters for stream `i`. The
  invariants of the session model are stated on the counters; `TallyGrammar`
  turns the counters back into statements about positions in the history.
 */
module Wire {
  import opened Basics

  datatype Kind = Open | Data | Ping | Pong | Close | Reset

  datatype Frame = Frame(kind: Kind, id: nat, payload: seq<byte>) {
    /** Frames that belong to a stream; PING and PONG belong to the session. */
    predicate OnStream() {
      kind != Ping && kind != Pong
    }

    predicate Is(k: Kind, i: nat) {
      kind == k && id == i
    }
  }

  datatype Tally = Tally(
    frames: nat,    // frames of the stream
    opens: nat,
    early: nat,     // frames sent before any OPEN
    closes: nat,
    resets: nat,
    late: nat,      // DATA frames after a CLOSE
    trailing: nat,  // DATA frames after a RESET
    data: seq<byte> // concatenated DATA payloads
  )

  const ZERO := Tally(0, 0, 0, 0, 0, 0, 0, [])

  function Bump(n: nat, b: bool): nat {
    if b then n + 1 else n
  }

  function Count(t: Tally, f: Frame, i: nat): Tally {
    if !f.OnStream() || f.id != i then t
    else Tally(
      t.frames + 1,
      Bump(t.opens, f.kind == Open),
      Bump(t.early, f.kind != Open && t.opens == 0),
      Bump(t.closes, f.kind == Close),
      Bump(t.resets, f.kind == Reset),
      Bump(t.late, f.kind == Data && t.closes > 0),
      Bump(t.trailing, f.kind == Data && t.resets > 0),
      if f.kind == Data then t.data + f.payload else t.data)
  }

  function Tallied(fs: seq<Frame>, i: nat): Tally {
    if fs == [] then ZERO else Count(Tallied(fs[..|fs| - 1], i), fs[|fs| - 1], i)
  }

  lemma TallyAppend(fs: seq<Frame>, f: Frame, i: nat)
    ensures Tallied(fs + [f], i) == Count(Tallied(fs, i), f, i)
  {
    assert (fs + [f])[..|fs|] == fs;
  }

  lemma TallyTake(fs: seq<Frame>, k: nat, i: nat)
    requires k < |fs|
    ensures Tallied(fs[..k + 1], i) == Count(Tallied(fs[..k], i), fs[k], i)
  {
    assert fs[..k + 1] == fs[..k] + [fs[k]];
    TallyAppend(fs[..k], fs[k], i);
  }

  predicate Below(s: Tally, t: Tally) {
    && s.frames <= t.frames && s.opens <= t.opens && s.early <= t.early && s.closes <= t.closes
    && s.resets <= t.resets && s.late <= t.late && s.trailing <= t.trailing && s.data <= t.data
  }

  /** A longer history never takes anything back. */
  lemma {:induction false} TallyMonotone(fs: seq<Frame>, k: nat, i: nat)
    requires k <= |fs|
    ensures Below(Tallied(fs[..k], i), Tallied(fs, i))
    decreases |fs| - k
  {
    if k == |fs| {
      assert fs[..k] == fs;
    } else {
      TallyTake(fs, k, i);
      TallyMonotone(fs, k + 1, i);
      assert Tallied(fs[..k], i).data <= Tallied(fs[..k + 1], i).data;
    }
  }

  /** What the counters can say about each other in any history. */
  lemma {:induction false} TallyShape(fs: seq<Frame>, i: nat)
    ensures var t := Tallied(fs, i);
            && (t.frames == 0 ==> t == ZERO)
            && (t.opens == 0 && t.early == 0 ==> t == ZERO)
            && (t.closes == 0 ==> t.late == 0)
            && (t.resets == 0 ==> t.trailing == 0)
  {
    if fs != [] {
      TallyShape(fs[..|fs| - 1], i);
    }
  }

  /** Once a CLOSE is in a history with no late DATA, the data is complete. */
  lemma {:induction false} DataComplete(fs: seq<Frame>, k: nat, i: nat)
    requires k <= |fs|
    requires Tallied(fs[..k], i).closes > 0
    requires Tallied(fs, i).late == 0
    ensures Tallied(fs, i).data == Tallied(fs[..k], i).data
    decreases |fs| - k
  {
    if k == |fs| {
      assert fs[..k] == fs;
    } else {
      TallyTake(fs, k, i);
      TallyMonotone(fs, k + 1, i);
      DataComplete(fs, k + 1, i);
    }
  }

  /** The per-stream wire grammar, stated on positions. */
  ghost predicate WireGrammar(fs: seq<Frame>, i: nat) {
    && (forall p, q :: 0 <= p < q < |fs| ==> !(fs[p].Is(Close, i) && fs[q].Is(Close, i)))
    && (forall p, q :: 0 <= p < q < |fs| ==> !(fs[p].Is(Reset, i) && fs[q].Is(Reset, i)))
    && (forall p, q :: 0 <= p < q < |fs| ==> !(fs[p].Is(Close, i) && fs[q].Is(Data, i)))
    && (forall p, q, r :: 0 <= p < q < r < |fs| ==>
          !(fs[p].Is(Reset, i) && fs[q].Is(Data, i) && fs[r].Is(Data, i)))
  }

  predicate TallyBounds(t: Tally) {
    t.closes <= 1 && t.resets <= 1 && t.late == 0 && t.trailing <= 1
  }

  /** A frame at position `p` is counted, and so is what follows it. */
  lemma Counted(fs: seq<Frame>, p: nat, i: nat)
    requires p < |fs|
    ensures fs[p].Is(Close, i) ==> Tallied(fs[..p + 1], i).closes > 0 && Tallied(fs, i).closes > 0
    ensures fs[p].Is(Reset, i) ==> Tallied(fs[..p + 1], i).resets > 0 && Tallied(fs, i).resets > 0
  {
    TallyTake(fs, p, i);
    TallyMonotone(fs, p + 1, i);
  }

  /** The last frame breaks no rule, whatever came before it. */
  ghost predicate LastFrameOk(fs: seq<Frame>, f: Frame, i: nat) {
    && (forall p :: 0 <= p < |fs| ==> !(fs[p].Is(Close, i) && f.Is(Close, i)))
    && (forall p :: 0 <= p < |fs| ==> !(fs[p].Is(Reset, i) && f.Is(Reset, i)))
    && (forall p :: 0 <= p < |fs| ==> !(fs[p].Is(Close, i) && f.Is(Data, i)))
    && (forall p, q :: 0 <= p < q < |fs| ==> !(fs[p].Is(Reset, i) && fs[q].Is(Data, i) && f.Is(Data, i)))
  }

  lemma LastFrame(fs: seq<Frame>, f: Frame, i: nat)
    requires TallyBounds(Count(Tallied(fs, i), f, i))
    ensures LastFrameOk(fs, f, i)
  {
    forall p | 0 <= p < |fs|
      ensures !(fs[p].Is(Close, i) && f.Is(Close, i))
      ensures !(fs[p].Is(Reset, i) && f.Is(Reset, i))
      ensures !(fs[p].Is(Close, i) && f.Is(Data, i))
    {
      Counted(fs, p, i);
    }
    forall p, q | 0 <= p < q < |fs| && fs[p].Is(Reset, i) && fs[q].Is(Data, i)
      ensures !f.Is(Data, i)
    {
      Trailed(fs, p, q, i);
      Counted(fs, p, i);
    }
  }

  lemma GrammarPush(fs: seq<Frame>, f: Frame, i: nat)
    requires WireGrammar(fs, i) && LastFrameOk(fs, f, i)
    ensures WireGrammar(fs + [f], i)
  {
  }

  /** The bounds on the counters are the grammar on positions. */
  lemma {:induction false} TallyGrammar(fs: seq<Frame>, i: nat)
    requires TallyBounds(Tallied(fs, i))
    ensures WireGrammar(fs, i)
  {
    if fs != [] {
      var init, f := fs[..|fs| - 1], fs[|fs| - 1];
      TallyMonotone(fs, |fs| - 1, i);
      TallyGrammar(init, i);
      LastFrame(init, f, i);
      GrammarPush(init, f, i);
      assert fs == init + [f];
    }
  }

  lemma Trailed(fs: seq<Frame>, p: nat, q: nat, i: nat)
    requires p < q < |fs| && fs[p].Is(Reset, i) && fs[q].Is(Data, i)
    ensures Tallied(fs, i).trailing > 0
  {
    Counted(fs, p, i);
    assert fs[..q][..p + 1] == fs[..p + 1];
    TallyMonotone(fs[..q], p + 1, i);
    TallyTake(fs, q, i);
    TallyMonotone(fs, q + 1, i);
  }
}

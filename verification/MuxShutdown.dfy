/**
  Shutdown gets done: once a session is closed, the steps of whoever closed it
  end every stream, and nobody is left who could sleep on.
 */
module MuxShutdown {
  import opened Wire
  import opened MuxStream
  import opened MuxSession
  import opened MuxInvariant
  import opened MuxWorld
  import MuxTheorems

  predicate IsShut(a: Action) {
    a.ShutMark? || a.ShutStep?
  }

  /** Steps left until the done channel closes. */
  function ShutDistance(s: ShutPc): nat {
    match s
    case SLoop(rem) => 3 * |rem| + 1
    case SEof(_, rem) => 3 * |rem| + 3
    case SSignal(_, rem) => 3 * |rem| + 2
    case _ => 0
  }

  /** The same streams, standing where they stood in OpenStream, on a session as closed as it was. */
  ghost predicate SameHandles(e: Endpoint, e': Endpoint) {
    && (e.closed ==> e'.closed) && (e.done ==> e'.done)
    && (forall i :: i in e.streams ==> i in e'.streams && e'.streams[i].phase == e.streams[i].phase)
    && (forall i :: i in e'.streams ==> i in e.streams)
  }

  lemma ShutMoves(e: Endpoint, inp: seq<Frame>) returns (a: Action)
    requires Base(e, inp) && e.closed && !e.done
    ensures IsShut(a)
    ensures var r := Exec(e, inp, a);
            r.Some? && SameHandles(e, r.value) && ShutDistance(r.value.shut) < ShutDistance(e.shut)
  {
    if e.shut.SLoop? && e.shut.rem != {} {
      var i :| i in e.shut.rem;
      assert i in Remaining(e.shut);
      a := ShutMark(i);
    } else {
      a := ShutStep;
      assert Exec(e, inp, a) == ShutNext(e);
    }
  }

  ghost predicate AllShut(s: Side, more: seq<Event>) {
    forall k :: 0 <= k < |more| ==> more[k].side == s && IsShut(more[k].action)
  }

  lemma RunOne(evs: seq<Event>, s: Side, a: Action)
    requires Reachable(evs)
    ensures var w := Reached(evs);
            var r := Exec(w.At(s), w.Inbound(s), a);
            r.Some? ==> Reachable(evs + [Event(s, a)]) && Reached(evs + [Event(s, a)]).At(s) == r.value
  {
    assert (evs + [Event(s, a)])[..|evs|] == evs;
  }

  lemma BaseHolds(evs: seq<Event>, s: Side)
    requires Reachable(evs)
    ensures Base(Reached(evs).At(s), Reached(evs).Inbound(s))
  {
    PairInv(evs, s);
  }

  lemma ShutOne(evs: seq<Event>, s: Side) returns (ev: Event)
    requires Reachable(evs) && Reached(evs).At(s).closed && !Reached(evs).At(s).done
    ensures ev.side == s && IsShut(ev.action) && Reachable(evs + [ev])
    ensures var e, e' := Reached(evs).At(s), Reached(evs + [ev]).At(s);
            SameHandles(e, e') && ShutDistance(e'.shut) < ShutDistance(e.shut)
  {
    BaseHolds(evs, s);
    var a := ShutMoves(Reached(evs).At(s), Reached(evs).Inbound(s));
    RunOne(evs, s, a);
    ev := Event(s, a);
  }

  /** `more` brings shutdown to its end. */
  ghost predicate Finishes(evs: seq<Event>, s: Side, more: seq<Event>)
    requires Reachable(evs)
  {
    && AllShut(s, more) && Reachable(evs + more)
    && Reached(evs + more).At(s).done && SameHandles(Reached(evs).At(s), Reached(evs + more).At(s))
  }

  lemma FinishesThen(evs: seq<Event>, s: Side, ev: Event, rest: seq<Event>)
    requires Reachable(evs) && Reachable(evs + [ev]) && Finishes(evs + [ev], s, rest)
    requires ev.side == s && IsShut(ev.action) && SameHandles(Reached(evs).At(s), Reached(evs + [ev]).At(s))
    ensures Finishes(evs, s, [ev] + rest)
  {
    assert evs + ([ev] + rest) == evs + [ev] + rest;
  }

  /** Shutdown's own steps close the done channel. */
  lemma {:induction false} ShutRuns(evs: seq<Event>, s: Side) returns (more: seq<Event>)
    requires Reachable(evs) && Reached(evs).At(s).closed
    ensures Finishes(evs, s, more)
    decreases ShutDistance(Reached(evs).At(s).shut)
  {
    if Reached(evs).At(s).done {
      more := [];
      assert evs + more == evs;
    } else {
      var ev := ShutOne(evs, s);
      var rest := ShutRuns(evs + [ev], s);
      more := [ev] + rest;
      FinishesThen(evs, s, ev, rest);
    }
  }

  /** From every closed state, shutdown's steps alone close done, and every handed-out stream is over by then. */
  lemma ShutdownFinishes(evs: seq<Event>, s: Side) returns (more: seq<Event>)
    requires Reachable(evs) && Reached(evs).At(s).closed
    ensures Finishes(evs, s, more)
    ensures var e, e' := Reached(evs).At(s), Reached(evs + more).At(s);
            forall i :: i in e.streams && e.streams[i].phase == Live ==> e'.streams[i].rd.readDone
  {
    more := ShutRuns(evs, s);
    var e, e' := Reached(evs).At(s), Reached(evs + more).At(s);
    forall i | i in e.streams && e.streams[i].phase == Live ensures e'.streams[i].rd.readDone {
      MuxTheorems.DoneMeansTerminal(evs + more, s, i);
    }
  }

  // ---- Under any schedule ----

  /** How many steps of shutdown `more` holds. */
  function ShutSteps(s: Side, more: seq<Event>): nat {
    if more == [] then 0
    else
      var last := more[|more| - 1];
      ShutSteps(s, more[..|more| - 1]) + if last.side == s && IsShut(last.action) then 1 else 0
  }

  /** Each step of shutdown brings the end nearer, and nothing else puts it off. */
  lemma ShutProgress(e: Endpoint, inp: seq<Frame>, a: Action)
    requires e.closed && (e.done <==> e.shut.SClosing? || e.shut.SDone?)
    ensures var r := Exec(e, inp, a);
            r.Some? ==>
              && r.value.closed && (e.done ==> r.value.done)
              && ShutDistance(r.value.shut) + (if IsShut(a) && !e.done then 1 else 0) <= ShutDistance(e.shut)
  {
    if a.LoopStep? {
      LoopShutsNothing(e, a.choice);
    } else if a.ShutMark? {
      MarkProgress(e, inp, a.i);
    }
  }

  lemma MarkProgress(e: Endpoint, inp: seq<Frame>, i: nat)
    ensures var r := Exec(e, inp, ShutMark(i));
            r.Some? ==> r.value.closed == e.closed && r.value.done == e.done && ShutDistance(r.value.shut) < ShutDistance(e.shut)
  {
  }

  lemma LoopShutsNothing(e: Endpoint, c: Choice)
    ensures var r := LoopNext(e, c);
            r.Some? ==> r.value.shut == e.shut && r.value.closed == e.closed && r.value.done == e.done
  {
  }

  lemma {:induction false} ShutCounts(evs: seq<Event>, more: seq<Event>, s: Side)
    requires Reachable(evs) && Reachable(evs + more) && Reached(evs).At(s).closed
    ensures var e, e' := Reached(evs).At(s), Reached(evs + more).At(s);
            e'.closed && (e'.done || ShutDistance(e'.shut) + ShutSteps(s, more) <= ShutDistance(e.shut))
  {
    if more == [] {
      assert evs + more == evs;
    } else {
      var init, last := more[..|more| - 1], more[|more| - 1];
      assert (evs + more)[..|evs + more| - 1] == evs + init;
      RunSplit(START, evs + init, [last]);
      ShutCounts(evs, init, s);
      if last.side == s {
        BaseHolds(evs + init, s);
        ShutProgress(Reached(evs + init).At(s), Reached(evs + init).Inbound(s), last.action);
      }
    }
  }

  /** Shutdown of side `s` has a step it can take now. */
  ghost predicate CanShut(evs: seq<Event>, s: Side) {
    exists ev: Event :: ev.side == s && IsShut(ev.action) && Reachable(evs + [ev])
  }

  /**
    In every run, whatever else is scheduled: done is closed and every stream
    handed out is over, or shutdown has taken fewer steps than ShutDistance says,
    three for each stream on its list and at most three more, and has one to take
    now.
   */
  lemma ShutdownIsBounded(evs: seq<Event>, more: seq<Event>, s: Side, i: nat)
    requires Reachable(evs) && Reachable(evs + more) && Reached(evs).At(s).closed
    ensures var e, e' := Reached(evs).At(s), Reached(evs + more).At(s);
            if e'.done then i in e'.streams && e'.streams[i].phase == Live ==> e'.streams[i].rd.readDone
            else ShutSteps(s, more) < ShutDistance(e.shut) && CanShut(evs + more, s)
  {
    ShutCounts(evs, more, s);
    var e' := Reached(evs + more).At(s);
    if !e'.done {
      BaseHolds(evs + more, s);
      AtEnd(e'.shut);
      var ev := ShutOne(evs + more, s);
    } else if i in e'.streams && e'.streams[i].phase == Live {
      MuxTheorems.DoneMeansTerminal(evs + more, s, i);
    }
  }

  lemma AtEnd(s: ShutPc)
    ensures ShutDistance(s) == 0 ==> s.SIdle? || s.SClosing? || s.SDone?
  {
  }

  // ---- The last sleepers ----

  /** Handed-out streams whose eofCh is still open. */
  function Unsignalled(e: Endpoint): set<nat> {
    set i | i in e.streams && e.streams[i].phase == Live && !e.streams[i].rd.eofClosed
  }

  /** An Abort or the read loop, about to close the eofCh of a stream it ended. */
  predicate IsWaker(a: Action) {
    (a.StepCall? && a.call == AbortStep) || a == LoopStep(TakeChunk)
  }

  /** The waker of stream `i` touches no other stream. */
  lemma WakerTouchesOne(e: Endpoint, inp: seq<Frame>, i: nat)
    requires i in e.streams && e.rcvd <= |inp| && e.streams[i].phase == Live && MuxTheorems.AtEof(ViewOf(e, inp, i))
    requires e.streams[i].rd.marker != ByShutdown
    ensures var a := MuxTheorems.Waker(e.streams[i].rd.marker, i);
            var r := Exec(e, inp, a);
            && IsWaker(a) && r.Some? && i in r.value.streams && r.value.streams[i].phase == Live
            && r.value.streams == e.streams[i := r.value.streams[i]]
            && r.value.closed == e.closed && r.value.done == e.done && r.value.streams[i].rd.eofClosed
  {
    MuxTheorems.WakerSteps(e, inp, i);
    if e.streams[i].rd.marker == ByAborter {
      assert CallNext(e.streams[i], i, AbortStep, SendOk(e, true)) == AbortNext(e.streams[i], i);
    } else {
      assert Exec(e, inp, LoopStep(TakeChunk)) == LoopNext(e, TakeChunk) && e.loop.id == i;
    }
  }

  lemma FewerUnsignalled(e: Endpoint, e': Endpoint, i: nat)
    requires i in Unsignalled(e) && i in e'.streams && e'.streams[i].rd.eofClosed && e'.streams[i].phase == Live
    requires e'.streams == e.streams[i := e'.streams[i]] && e'.closed == e.closed && e'.done == e.done
    ensures Unsignalled(e') == Unsignalled(e) - {i} && SameHandles(e, e')
  {
  }

  lemma DoneMarker(v: View)
    requires VInv(v) && v.done && v.st.phase == Live && !v.st.rd.eofClosed && v.shutOn == NotOn
    ensures v.st.rd.readDone && v.st.rd.marker != ByShutdown && MuxTheorems.AtEof(v)
  {
  }

  lemma WakeStep(e: Endpoint, inp: seq<Frame>, i: nat)
    requires EpInv(e, inp) && e.done && i in Unsignalled(e)
    ensures var a := MuxTheorems.Waker(e.streams[i].rd.marker, i);
            var r := Exec(e, inp, a);
            && IsWaker(a) && r.Some? && Unsignalled(r.value) == Unsignalled(e) - {i} && SameHandles(e, r.value)
  {
    DoneMarker(ViewOf(e, inp, i));
    WakerTouchesOne(e, inp, i);
    FewerUnsignalled(e, Exec(e, inp, MuxTheorems.Waker(e.streams[i].rd.marker, i)).value, i);
  }

  /** One open eofCh less, by the step of whoever ended that stream. */
  lemma WakeOne(evs: seq<Event>, s: Side, i: nat) returns (ev: Event)
    requires Reachable(evs) && Reached(evs).At(s).done && i in Unsignalled(Reached(evs).At(s))
    ensures ev.side == s && IsWaker(ev.action) && Reachable(evs + [ev])
    ensures var e, e' := Reached(evs).At(s), Reached(evs + [ev]).At(s);
            Unsignalled(e') == Unsignalled(e) - {i} && SameHandles(e, e')
  {
    var a := MuxTheorems.Waker(Reached(evs).At(s).streams[i].rd.marker, i);
    PairInv(evs, s);
    WakeStep(Reached(evs).At(s), Reached(evs).Inbound(s), i);
    RunOne(evs, s, a);
    ev := Event(s, a);
  }

  ghost predicate AllWake(s: Side, more: seq<Event>) {
    forall k :: 0 <= k < |more| ==> more[k].side == s && IsWaker(more[k].action)
  }

  /** `more` wakes everybody there is to wake after `evs`. */
  ghost predicate Wakes(evs: seq<Event>, s: Side, more: seq<Event>)
    requires Reachable(evs)
  {
    && AllWake(s, more) && Reachable(evs + more)
    && SameHandles(Reached(evs).At(s), Reached(evs + more).At(s)) && Unsignalled(Reached(evs + more).At(s)) == {}
  }

  lemma WakesThen(evs: seq<Event>, s: Side, ev: Event, rest: seq<Event>)
    requires Reachable(evs) && Reachable(evs + [ev]) && Wakes(evs + [ev], s, rest)
    requires ev.side == s && IsWaker(ev.action) && SameHandles(Reached(evs).At(s), Reached(evs + [ev]).At(s))
    ensures Wakes(evs, s, [ev] + rest)
  {
    assert evs + ([ev] + rest) == evs + [ev] + rest;
  }

  lemma {:induction false} WakeAll(evs: seq<Event>, s: Side) returns (more: seq<Event>)
    requires Reachable(evs) && Reached(evs).At(s).done
    ensures Wakes(evs, s, more)
    decreases |Unsignalled(Reached(evs).At(s))|
  {
    var open := Unsignalled(Reached(evs).At(s));
    if open == {} {
      more := [];
      assert evs + more == evs;
    } else {
      var i :| i in open;
      var ev := WakeOne(evs, s, i);
      assert |open - {i}| < |open|;
      var rest := WakeAll(evs + [ev], s);
      more := [ev] + rest;
      WakesThen(evs, s, ev, rest);
    }
  }

  /**
    From every closed state, shutdown's steps, followed by those of the goroutines
    that were just ending a stream themselves, close done and the eofCh of every
    handed-out stream: no reader sleeps on.
   */
  lemma EveryReaderWakes(evs: seq<Event>, s: Side) returns (down: seq<Event>, wake: seq<Event>)
    requires Reachable(evs) && Reached(evs).At(s).closed
    ensures AllShut(s, down) && AllWake(s, wake) && Reachable(evs + down + wake)
    ensures var e, e' := Reached(evs).At(s), Reached(evs + down + wake).At(s);
            && e'.done
            && forall i :: i in e.streams && e.streams[i].phase == Live ==>
                 i in e'.streams && e'.streams[i].rd.readDone && e'.streams[i].rd.eofClosed
  {
    down := ShutdownFinishes(evs, s);
    wake := WakeAll(evs + down, s);
    var e, e' := Reached(evs).At(s), Reached(evs + down + wake).At(s);
    forall i | i in e.streams && e.streams[i].phase == Live
      ensures i in e'.streams && e'.streams[i].rd.readDone && e'.streams[i].rd.eofClosed
    {
      assert i !in Unsignalled(e');
      MuxTheorems.DoneMeansTerminal(evs + down + wake, s, i);
    }
  }
}

/**
  The liveness clock of a session: the read loop's marks, the idle watchdog and
  the staleness probe, step by step against a clock (session.go).

  The clock stands still between a watchdog's or probe's two loads, and between
  reading a frame and setting `stalled`; ticks are prompt: time does not pass a
  tick the watchdog has not taken. Times are nanoseconds since the session began.
 */
module Liveness {
  import opened Basics

  /** Reading, a DATA frame in hand, inside pushData, or past markRecv and about to clear `stalled`. */
  datatype LoopPc = Reading | InHand | Pushing | Marked

  datatype Config = Config(idle: nat, ping: nat) {
    /** The watchdog's ticker. */
    function Period(): nat {
      Max(idle / 4, 1_000_000)
    }

    /** One and a half ping intervals. */
    function StaleAfter(): nat {
      ping + ping / 2
    }
  }

  datatype State = State(
    now: nat,
    lastRecv: nat,
    stalled: bool,
    loop: LoopPc,
    watching: bool,   // the watchdog has seen stalled unset and computes the silence next
    probing: bool,    // so has a caller of Stale
    nextTick: nat,
    closed: bool,     // ended by the watchdog
    stale: bool       // the last probe's answer
  )

  datatype Event =
    | Advance(d: nat)
    | Receive        // bytes arrive, the frame is not complete
    | ReceiveData    // the last bytes of a DATA frame arrive
    | Stall
    | MarkRecv       // pushData has returned
    | Unstall
    | Tick
    | CheckIdle
    | Probe
    | CheckStale

  /** Run has just marked the session alive and started the watchdog. */
  function Init(c: Config): State {
    State(0, 0, false, Reading, false, false, c.Period(), false, false)
  }

  function Next(c: Config, s: State, ev: Event): Option<State> {
    match ev
    case Advance(d) =>
      if s.watching || s.probing || s.loop == InHand || (!s.closed && s.now + d > s.nextTick) then None
      else Some(s.(now := s.now + d))
    case Receive => if s.loop != Reading then None else Some(s.(lastRecv := s.now))
    case ReceiveData => if s.loop != Reading then None else Some(s.(lastRecv := s.now, loop := InHand))
    case Stall => if s.loop != InHand then None else Some(s.(stalled := true, loop := Pushing))
    case MarkRecv => if s.loop != Pushing then None else Some(s.(lastRecv := s.now, loop := Marked))
    case Unstall => if s.loop != Marked then None else Some(s.(stalled := false, loop := Reading))
    case Tick =>
      if s.closed || s.watching || s.now != s.nextTick then None
      else Some(s.(watching := !s.stalled, nextTick := s.nextTick + c.Period()))
    case CheckIdle =>
      if !s.watching then None
      else Some(s.(watching := false, closed := s.closed || s.now - s.lastRecv > c.idle))
    case Probe => if s.probing then None else Some(s.(probing := !s.stalled, stale := s.stale && !s.stalled))
    case CheckStale =>
      if !s.probing then None
      else Some(s.(probing := false, stale := s.now - s.lastRecv > c.StaleAfter()))
  }

  /** `run` lists the states the events `evs` lead through. */
  ghost predicate IsRun(c: Config, evs: seq<Event>, run: seq<State>) {
    && |run| == |evs| + 1 && run[0] == Init(c)
    && forall k :: 0 <= k < |evs| ==> Next(c, run[k], evs[k]) == Some(run[k + 1])
  }

  predicate Inv(c: Config, s: State) {
    && (s.stalled <==> s.loop == Pushing || s.loop == Marked)
    && s.lastRecv <= s.now
    && (s.loop == InHand ==> s.lastRecv == s.now)
    && ((s.watching || s.probing) && s.loop == Pushing ==> s.lastRecv == s.now)
    && (s.closed || s.nextTick - c.Period() <= s.now <= s.nextTick)
    && (s.watching && !s.closed ==> s.now == s.nextTick - c.Period())
  }

  lemma StepInv(c: Config, s: State, ev: Event)
    requires Inv(c, s)
    ensures var r := Next(c, s, ev); r.Some? ==> Inv(c, r.value) && s.now <= r.value.now
  {
  }

  lemma {:induction false} Always(c: Config, evs: seq<Event>, run: seq<State>, n: nat)
    requires IsRun(c, evs, run) && n <= |evs|
    ensures Inv(c, run[n])
  {
    if n > 0 {
      Always(c, evs, run, n - 1);
      StepInv(c, run[n - 1], evs[n - 1]);
    }
  }

  /** At moment `k` bytes have just arrived, or the loop is inside pushData. */
  predicate Busy(evs: seq<Event>, run: seq<State>, k: nat)
    requires k < |run| && |run| == |evs| + 1
  {
    run[k].loop == Pushing || (k > 0 && (evs[k - 1].Receive? || evs[k - 1].ReceiveData?))
  }

  /** The latest moment lastRecv, or being inside pushData right now, accounts for. */
  function Covered(s: State): nat {
    if s.loop == Pushing then s.now else s.lastRecv
  }

  lemma StepCovers(c: Config, s: State, ev: Event)
    requires Inv(c, s)
    ensures var r := Next(c, s, ev);
            r.Some? ==>
              && Covered(s) <= Covered(r.value)
              && (ev.Receive? || ev.ReceiveData? ==> r.value.now <= Covered(r.value))
  {
  }

  lemma {:induction false} BusyCovered(c: Config, evs: seq<Event>, run: seq<State>, k: nat, n: nat)
    requires IsRun(c, evs, run) && k <= n <= |evs| && (k == 0 || Busy(evs, run, k))
    ensures run[k].now <= Covered(run[n])
  {
    if n > 0 {
      Always(c, evs, run, n - 1);
      StepCovers(c, run[n - 1], evs[n - 1]);
      if k < n {
        BusyCovered(c, evs, run, k, n - 1);
      }
    }
  }

  /**
    Own stall is not silence: when the watchdog closes the session, no byte has
    arrived and the read loop has not been inside pushData for the whole idle time.
   */
  lemma StallIsNotSilence(c: Config, evs: seq<Event>, run: seq<State>, k: nat, n: nat)
    requires IsRun(c, evs, run) && k <= n < |evs| && Busy(evs, run, k)
    requires !run[n].closed && run[n + 1].closed
    ensures run[n + 1].now - run[k].now > c.idle
  {
    Always(c, evs, run, n);
    BusyCovered(c, evs, run, k, n);
    ClosesOnSilence(c, run[n], evs[n]);
  }

  lemma ClosesOnSilence(c: Config, s: State, ev: Event)
    requires Inv(c, s) && Next(c, s, ev).Some? && !s.closed && Next(c, s, ev).value.closed
    ensures ev.CheckIdle? && s.now - Covered(s) > c.idle && Next(c, s, ev).value.now == s.now
  {
  }

  /** The same for staleness: a stalled or recently heard session is never found stale. */
  lemma StallIsNotStale(c: Config, evs: seq<Event>, run: seq<State>, k: nat, n: nat)
    requires IsRun(c, evs, run) && k <= n < |evs| && Busy(evs, run, k)
    requires evs[n] == CheckStale && run[n + 1].stale
    ensures run[n + 1].now - run[k].now > c.ping + c.ping / 2
  {
    Always(c, evs, run, n);
    BusyCovered(c, evs, run, k, n);
  }

  /** Heard from, or busy with the peer's data, within the last `limit` ns before moment `n`. */
  ghost predicate HeardWithin(evs: seq<Event>, run: seq<State>, n: nat, limit: nat)
    requires n < |run| && |run| == |evs| + 1
  {
    exists k :: 0 <= k <= n && (k == 0 || Busy(evs, run, k)) && run[n].now - run[k].now <= limit
  }

  /** A peer heard from at least once in every idle window is never closed for idleness. */
  lemma {:induction false} HeardIsNotClosed(c: Config, evs: seq<Event>, run: seq<State>, n: nat)
    requires IsRun(c, evs, run) && n <= |evs|
    requires forall m :: 0 <= m <= n ==> HeardWithin(evs, run, m, c.idle)
    ensures !run[n].closed
  {
    if n > 0 {
      HeardIsNotClosed(c, evs, run, n - 1);
      if run[n].closed {
        Always(c, evs, run, n - 1);
        ClosesOnSilence(c, run[n - 1], evs[n - 1]);
        assert HeardWithin(evs, run, n - 1, c.idle);
        var k :| 0 <= k <= n - 1 && (k == 0 || Busy(evs, run, k)) && run[n - 1].now - run[k].now <= c.idle;
        BusyCovered(c, evs, run, k, n - 1);
      }
    }
  }

  /** A peer heard from within one and a half ping intervals is not found stale. */
  lemma HeardIsNotStale(c: Config, evs: seq<Event>, run: seq<State>, n: nat)
    requires IsRun(c, evs, run) && n < |evs| && evs[n] == CheckStale
    requires HeardWithin(evs, run, n, c.ping + c.ping / 2)
    ensures !run[n + 1].stale
  {
    var k :| 0 <= k <= n && (k == 0 || Busy(evs, run, k)) && run[n].now - run[k].now <= c.ping + c.ping / 2;
    Always(c, evs, run, n);
    BusyCovered(c, evs, run, k, n);
  }

  /** From moment `m` to moment `n` nothing arrives and the read loop is not stalled. */
  ghost predicate Silent(run: seq<State>, m: nat, n: nat)
    requires m <= n < |run|
  {
    forall k :: m <= k <= n ==> !run[k].stalled && run[k].lastRecv == run[m].lastRecv
  }

  /** A session silent since moment `m` is closed before the clock passes idle and one tick. */
  lemma SilentIsClosed(c: Config, evs: seq<Event>, run: seq<State>, m: nat, n: nat)
    requires IsRun(c, evs, run) && m <= n <= |evs| && Silent(run, m, n)
    ensures run[n].closed || run[n].now <= run[m].now + c.idle + Max(c.idle / 4, 1_000_000)
  {
    TickInTime(c, evs, run, m, n);
    Always(c, evs, run, n);
  }

  /** A session silent for more than one and a half ping intervals is found stale, if a probe gets to look. */
  lemma SilentIsStale(c: Config, evs: seq<Event>, run: seq<State>, m: nat, n: nat)
    requires IsRun(c, evs, run) && m <= n < |evs| && Silent(run, m, n) && evs[n] == CheckStale
    requires run[n].now - run[m].now > c.ping + c.ping / 2
    ensures run[n + 1].stale
  {
    Always(c, evs, run, m);
  }

  /** And a probe of an unstalled session does get to look; of a stalled one it answers at once, not stale. */
  lemma ProbeLooks(c: Config, evs: seq<Event>, run: seq<State>, n: nat)
    requires IsRun(c, evs, run) && n < |evs| && evs[n] == Probe
    ensures run[n].stalled ==> !run[n + 1].stale && !run[n + 1].probing
    ensures !run[n].stalled ==> Next(c, run[n + 1], CheckStale).Some?
  {
    assert Next(c, run[n], evs[n]) == Some(run[n + 1]);
  }

  /** The answer is exactly whether the last byte is longer ago than that. */
  lemma StaleExactly(c: Config, evs: seq<Event>, run: seq<State>, n: nat)
    requires IsRun(c, evs, run) && n < |evs| && evs[n] == CheckStale
    ensures run[n + 1].stale <==> run[n].now - run[n].lastRecv > c.ping + c.ping / 2
  {
    assert Next(c, run[n], evs[n]) == Some(run[n + 1]);
  }

  /** And the watchdog's, whether it is longer ago than the idle time; a stalled loop is never asked. */
  lemma IdleExactly(c: Config, evs: seq<Event>, run: seq<State>, n: nat)
    requires IsRun(c, evs, run) && n < |evs| && !run[n].closed
    ensures evs[n] == CheckIdle ==> (run[n + 1].closed <==> run[n].now - run[n].lastRecv > c.idle)
    ensures evs[n] == Tick ==> (run[n + 1].watching <==> !run[n].stalled)
    ensures evs[n] != CheckIdle ==> !run[n + 1].closed
  {
    assert Next(c, run[n], evs[n]) == Some(run[n + 1]);
  }

  /** Bytes count from the moment they arrive, and so does the end of a stall. */
  lemma HeardCounts(c: Config, evs: seq<Event>, run: seq<State>, n: nat)
    requires IsRun(c, evs, run) && n < |evs|
    ensures evs[n] == Receive || evs[n] == ReceiveData || evs[n] == MarkRecv ==> run[n + 1].lastRecv == run[n].now
    ensures evs[n] != Receive && evs[n] != ReceiveData && evs[n] != MarkRecv ==> run[n + 1].lastRecv == run[n].lastRecv
  {
    assert Next(c, run[n], evs[n]) == Some(run[n + 1]);
  }

  /** While the session is open, the watchdog has a check due by then. */
  predicate DueBy(s: State, limit: nat) {
    s.closed || (if s.watching then s.now <= limit else s.nextTick <= limit)
  }

  lemma StepDue(c: Config, s: State, ev: Event, t: nat)
    requires Inv(c, s) && s.lastRecv <= t && !s.stalled && DueBy(s, t + c.idle + c.Period())
    ensures var r := Next(c, s, ev);
            r.Some? && r.value.lastRecv == s.lastRecv && !r.value.stalled ==> DueBy(r.value, t + c.idle + c.Period())
  {
  }

  lemma {:induction false} TickInTime(c: Config, evs: seq<Event>, run: seq<State>, m: nat, n: nat)
    requires IsRun(c, evs, run) && m <= n <= |evs| && Silent(run, m, n)
    ensures DueBy(run[n], run[m].now + c.idle + c.Period())
    decreases n
  {
    Always(c, evs, run, m);
    if m < n {
      TickInTime(c, evs, run, m, n - 1);
      Always(c, evs, run, n - 1);
      StepDue(c, run[n - 1], evs[n - 1], run[m].now);
    }
  }
}

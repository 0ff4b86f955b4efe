/** Two endpoints joined by two FIFO pipes, and every run of them. */
module MuxWorld {
  import opened Basics
  import opened Wire
  import opened MuxStream
  import opened MuxSession
  import opened MuxInvariant
  import MuxEndpoint

  datatype Side = Server | Client {
    function Other(): Side {
      if this == Server then Client else Server
    }
  }

  datatype Event = Event(side: Side, action: Action)

  datatype World = World(server: Endpoint, client: Endpoint) {
    function At(s: Side): Endpoint {
      if s == Server then server else client
    }

    function Put(s: Side, e: Endpoint): World {
      if s == Server then this.(server := e) else this.(client := e)
    }

    /** The frames on their way to `s`, taken or not. */
    function Inbound(s: Side): seq<Frame> {
      At(s.Other()).sent
    }
  }

  const START := World(NewEndpoint(true), NewEndpoint(false))

  function Next(w: World, ev: Event): Option<World> {
    var e := Exec(w.At(ev.side), w.Inbound(ev.side), ev.action);
    if e.None? then None else Some(w.Put(ev.side, e.value))
  }

  /** Any interleaving: each event is a step of either endpoint. */
  function Run(w: World, evs: seq<Event>): Option<World> {
    if evs == [] then Some(w)
    else
      var w' := Run(w, evs[..|evs| - 1]);
      if w'.None? then None else Next(w'.value, evs[|evs| - 1])
  }

  predicate Reachable(evs: seq<Event>) {
    Run(START, evs).Some?
  }

  function Reached(evs: seq<Event>): World
    requires Reachable(evs)
  {
    Run(START, evs).value
  }

  ghost predicate Inv(w: World) {
    && w.server.server && !w.client.server
    && EpInv(w.server, w.client.sent)
    && EpInv(w.client, w.server.sent)
  }

  /** What a peer that keeps its own invariant has sent. */
  lemma PeerKeepsGrammar(e: Endpoint, p: Endpoint)
    requires EpInv(e, p.sent) && EpInv(p, e.sent) && e.server != p.server
    ensures PeerOk(e, p.sent)
  {
    forall i: nat
      ensures var t := Tallied(p.sent, i);
              && TallyBounds(t) && t.opens <= 1
              && (if Own(e, i) then t.opens == 0 && (Tallied(e.sent, i).opens == 0 ==> t.frames == 0)
                  else t.early == 0)
    {
      TallyShape(p.sent, i);
      if i in p.streams {
        assert VInv(ViewOf(p, e.sent, i));
        TallyMonotone(e.sent, p.rcvd, i);
        assert Own(e, i) <==> !Own(p, i);
      }
    }
  }

  /** More frames on the wire change nothing for an endpoint that has not taken them. */
  lemma WireGrows(e: Endpoint, fs: seq<Frame>, more: seq<Frame>)
    requires EpInv(e, fs) && fs <= more
    ensures EpInv(e, more)
  {
    assert more[..e.rcvd] == fs[..e.rcvd];
    forall j | j in e.streams
      ensures VInv(ViewOf(e, more, j))
    {
      assert ViewOf(e, more, j) == ViewOf(e, fs, j);
    }
  }

  lemma ExecGrows(e: Endpoint, inp: seq<Frame>, a: Action)
    ensures var r := Exec(e, inp, a); r.Some? ==> e.sent <= r.value.sent && r.value.server == e.server
  {
    if a.LoopStep? {
      LoopSilent(e, a.choice);
    }
  }

  /** The read loop never writes. */
  lemma LoopSilent(e: Endpoint, c: Choice)
    ensures var r := LoopNext(e, c); r.Some? ==> r.value.sent == e.sent && r.value.server == e.server
  {
  }

  /** A step of `e` keeps its invariant and its peer's. */
  lemma PairKeeps(e: Endpoint, p: Endpoint, a: Action)
    requires EpInv(e, p.sent) && EpInv(p, e.sent) && e.server != p.server
    ensures var r := Exec(e, p.sent, a);
            r.Some? ==> EpInv(r.value, p.sent) && EpInv(p, r.value.sent) && r.value.server == e.server
  {
    PeerKeepsGrammar(e, p);
    MuxEndpoint.ExecKeeps(e, p.sent, a);
    ExecGrows(e, p.sent, a);
    var r := Exec(e, p.sent, a);
    if r.Some? {
      WireGrows(p, e.sent, r.value.sent);
    }
  }

  lemma NextKeeps(w: World, ev: Event)
    requires Inv(w)
    ensures var r := Next(w, ev); r.Some? ==> Inv(r.value)
  {
    if ev.side == Server {
      PairKeeps(w.server, w.client, ev.action);
    } else {
      PairKeeps(w.client, w.server, ev.action);
    }
  }

  lemma {:induction false} RunKeeps(w: World, evs: seq<Event>)
    requires Inv(w)
    ensures var r := Run(w, evs); r.Some? ==> Inv(r.value)
  {
    if evs != [] && Run(w, evs).Some? {
      RunKeeps(w, evs[..|evs| - 1]);
      NextKeeps(Run(w, evs[..|evs| - 1]).value, evs[|evs| - 1]);
    }
  }

  lemma StartInv()
    ensures Inv(START)
  {
  }

  /** The invariant holds in every state of every run. */
  lemma Always(evs: seq<Event>)
    requires Reachable(evs)
    ensures Inv(Reached(evs))
  {
    StartInv();
    RunKeeps(START, evs);
  }

  lemma {:induction false} RunSplit(w: World, a: seq<Event>, b: seq<Event>)
    ensures var r := Run(w, a); Run(w, a + b) == if r.None? then None else Run(r.value, b)
  {
    if b == [] {
      assert a + b == a;
    } else {
      assert (a + b)[..|a + b| - 1] == a + b[..|b| - 1];
      RunSplit(w, a, b[..|b| - 1]);
    }
  }

  /** The two endpoints of a reachable state, as seen from side `s`. */
  lemma PairInv(evs: seq<Event>, s: Side)
    requires Reachable(evs)
    ensures var w := Reached(evs);
            var e, p := w.At(s), w.At(s.Other());
            EpInv(e, p.sent) && EpInv(p, e.sent) && e.server != p.server
  {
    Always(evs);
  }
}

/**
  Tunnel registration and the public proxy's gate as one state machine: any
  number of connection handlers and public requests, stepping over one registry.

  A handler is a program counter in handleControlConn after the handshake checks
  (control.go); a request is one in ServeHTTP (proxy.go). The clock a handshake
  reads is fixed for that handshake; when a session is stale is up to the
  environment.
 */
module Tunnel {
  import opened Basics
  import opened Registry
  import Auth
  import FA = ForwardAuth

  datatype Server = Server(auth: Auth.Authenticator, lower: char -> char, fa: Option<FA.Env>)

  /** What the server has put on a control connection. */
  datatype WireEvent = AckOk | AckNo | MuxFrame

  datatype Pc =
    | Claiming(tries: nat)                        // the registration loop
    | Publishing(evicted: Option<SessionId>)      // registered; client.Protected not set yet
    | Evicting(loser: SessionId)                  // close the session that lost the name
    | Acking
    | AckFailed                                   // unregister
    | Closing                                     // close the session after a failed ack
    | Readying                                    // ack written; ready not closed yet
    | Running
    | Unregistering
    | Finishing                                   // the deferred markReady
    | Done
    | Rejected

  datatype Handler = Handler(
    adm: Auth.Admission,
    pc: Pc,
    name: string,
    isProtected: bool,       // client.Protected
    ready: bool,
    closed: bool,            // the mux session
    wire: seq<WireEvent>,
    evicted: bool            // history: lost its name to another connection
  )

  datatype Request =
    | Waiting(h: SessionId, headers: FA.Headers, cookie: Option<string>)
    | Gated(h: SessionId, headers: FA.Headers, cookie: Option<string>)    // past the ready gate
    | Cleared(h: SessionId, out: FA.Headers, cookie: Option<string>, when: int)
    | Proxied(h: SessionId, out: FA.Headers, cookie: Option<string>, when: int)
    | Ended

  datatype World = World(
    handlers: map<SessionId, Handler>,
    table: Table,
    stale: set<SessionId>,
    requests: map<nat, Request>
  )

  const START := World(map[], map[], {}, map[])

  const TRIES: nat := 100

  datatype Action =
    | Connect(h: SessionId, hello: Auth.Hello, overTLS: bool, at: Auth.Clocked)
    | Claim(h: SessionId, random: nat)
    | Publish(h: SessionId)
    | Evict(h: SessionId)
    | Ack(h: SessionId, ok: bool)
    | Step(h: SessionId)
    | Beat(h: SessionId)
    | SetStale(sessions: set<SessionId>)
    | Arrive(r: nat, name: string, headers: FA.Headers, cookie: Option<string>)
    | PassReady(r: nat)
    | PassGate(r: nat, when: int)
    | OpenStream(r: nat)
    | GiveUp(r: nat)

  function SetHandler(w: World, h: SessionId, x: Handler): World {
    w.(handlers := w.handlers[h := x])
  }

  function ConnectNext(srv: Server, w: World, h: SessionId, hello: Auth.Hello, overTLS: bool, at: Auth.Clocked): World {
    match Auth.Admit(srv.auth, srv.lower, hello, overTLS, at, srv.fa.Some?)
    case Ok(adm) => SetHandler(w, h, Handler(adm, Claiming(TRIES), "", false, false, false, [], false))
    case Err(_) =>
      var none := Auth.Admission(hello, overTLS, at, "", false, "");
      SetHandler(w, h, Handler(none, Rejected, "", false, false, false, [AckNo], false))
  }

  function Reject(x: Handler): Handler {
    x.(pc := Rejected, wire := x.wire + [AckNo])
  }

  /** Registry.Register, for a handler that may have `name`. */
  function Grant(w: World, h: SessionId, name: string): World
    requires h in w.handlers
  {
    var x, loser := w.handlers[h], Evicted(w.table, name);
    var w1 := if loser.Some? && loser.value in w.handlers
              then SetHandler(w, loser.value, w.handlers[loser.value].(evicted := true)) else w;
    SetHandler(w1, h, x.(pc := Publishing(loser), name := name)).(table := w.table[name := Entry(h, x.adm.tokenId)])
  }

  /** One turn of the registration loop, with the random bits it would draw. */
  function ClaimNext(srv: Server, w: World, h: SessionId, random: nat): World
    requires h in w.handlers && w.handlers[h].pc.Claiming?
  {
    var x := w.handlers[h];
    var generated := x.adm.sub == "";
    var name := if generated then Auth.Digits36(random, 6) else x.adm.sub;
    if x.pc.tries == 0 then SetHandler(w, h, Reject(x))
    else if generated && srv.auth.IsReserved(name) then SetHandler(w, h, x.(pc := Claiming(x.pc.tries - 1)))
    else if !MayClaim(w.table, name, x.adm.tokenId, w.stale) then
      SetHandler(w, h, if generated then x.(pc := Claiming(x.pc.tries - 1)) else Reject(x))
    else Grant(w, h, name)
  }

  /** The steps of a handler that involve nobody else's choice. */
  function StepHandler(x: Handler): Option<Handler> {
    match x.pc
    case AckFailed => Some(x.(pc := Closing))                          // unregister
    case Closing => Some(x.(closed := true, pc := Finishing))
    case Readying => Some(x.(ready := true, pc := Running))
    case Running => Some(x.(closed := true, pc := Unregistering))      // Run returned
    case Unregistering => Some(x.(pc := Finishing))
    case Finishing => Some(x.(ready := true, pc := Done))
    case _ => None
  }

  predicate Releases(pc: Pc) {
    pc == AckFailed || pc == Unregistering
  }

  function StepNext(w: World, h: SessionId): Option<World>
    requires h in w.handlers
  {
    var x := w.handlers[h];
    var x' := StepHandler(x);
    if x'.None? then None
    else if Releases(x.pc) then Some(SetHandler(w, h, x'.value).(table := Released(w.table, x.name, h)))
    else Some(SetHandler(w, h, x'.value))
  }

  /** The mux session of `h` closes. */
  function Closed(w: World, h: SessionId): World
    requires h in w.handlers
  {
    SetHandler(w, h, w.handlers[h].(closed := true))
  }

  function ToAck(w: World, h: SessionId): World
    requires h in w.handlers
  {
    SetHandler(w, h, w.handlers[h].(pc := Acking))
  }

  /** The ack goes out, or its write fails, as it does on a closed connection. */
  function Acknowledged(x: Handler, ok: bool): Handler {
    if ok && !x.closed then x.(pc := Readying, wire := x.wire + [AckOk]) else x.(pc := AckFailed)
  }

  function HandlerNext(srv: Server, w: World, a: Action): Option<World>
    requires a.Claim? || a.Publish? || a.Evict? || a.Ack? || a.Step? || a.Beat?
  {
    if a.h !in w.handlers then None
    else
      var x := w.handlers[a.h];
      match a
      case Claim(h, random) => if x.pc.Claiming? then Some(ClaimNext(srv, w, h, random)) else None
      case Publish(h) =>
        if !x.pc.Publishing? then None
        else Some(SetHandler(w, h, x.(isProtected := x.adm.isProtected,
                                      pc := if x.pc.evicted.Some? then Evicting(x.pc.evicted.value) else Acking)))
      case Evict(h) =>
        if !x.pc.Evicting? || x.pc.loser !in w.handlers then None else Some(ToAck(Closed(w, x.pc.loser), h))
      case Ack(h, ok) =>
        if x.pc != Acking then None else Some(SetHandler(w, h, Acknowledged(x, ok)))
      case Step(h) => StepNext(w, h)
      case Beat(h) =>
        if x.pc != Running || x.closed then None
        else Some(SetHandler(w, h, x.(wire := x.wire + [MuxFrame])))
  }

  function RequestNext(srv: Server, w: World, a: Action): Option<World>
    requires a.PassReady? || a.PassGate? || a.OpenStream? || a.GiveUp?
  {
    if a.r !in w.requests then None
    else
      var q := w.requests[a.r];
      match a
      case PassReady(r) =>
        if !q.Waiting? || q.h !in w.handlers || !w.handlers[q.h].ready then None
        else Some(w.(requests := w.requests[r := Gated(q.h, q.headers, q.cookie)]))
      case PassGate(r, when) =>
        if !q.Gated? || q.h !in w.handlers then None
        else
          var out := FA.Gate(srv.fa, w.handlers[q.h].isProtected, q.headers, q.cookie, when);
          Some(w.(requests := w.requests[r := if out.None? then Ended else Cleared(q.h, out.value, q.cookie, when)]))
      case OpenStream(r) =>
        if !q.Cleared? || q.h !in w.handlers then None
        else if w.handlers[q.h].closed then Some(w.(requests := w.requests[r := Ended]))
        else
          var x := w.handlers[q.h];
          Some(SetHandler(w, q.h, x.(wire := x.wire + [MuxFrame]))
               .(requests := w.requests[r := Proxied(q.h, q.out, q.cookie, q.when)]))
      case GiveUp(r) => Some(w.(requests := w.requests[r := Ended]))
  }

  function Next(srv: Server, w: World, a: Action): Option<World> {
    match a
    case Connect(h, hello, overTLS, at) =>
      if h in w.handlers then None else Some(ConnectNext(srv, w, h, hello, overTLS, at))
    case Claim(_, _) => HandlerNext(srv, w, a)
    case Publish(_) => HandlerNext(srv, w, a)
    case Evict(_) => HandlerNext(srv, w, a)
    case Ack(_, _) => HandlerNext(srv, w, a)
    case Step(_) => HandlerNext(srv, w, a)
    case Beat(_) => HandlerNext(srv, w, a)
    case SetStale(s) => Some(w.(stale := s))
    case Arrive(r, name, headers, cookie) =>
      if r in w.requests then None
      else Some(w.(requests := w.requests[r := if Auth.ValidSubdomain(name) && name in w.table
                                               then Waiting(w.table[name].session, headers, cookie) else Ended]))
    case PassReady(_) => RequestNext(srv, w, a)
    case PassGate(_, _) => RequestNext(srv, w, a)
    case OpenStream(_) => RequestNext(srv, w, a)
    case GiveUp(_) => RequestNext(srv, w, a)
  }

  function Run(srv: Server, acts: seq<Action>): Option<World> {
    if acts == [] then Some(START)
    else
      var w := Run(srv, acts[..|acts| - 1]);
      if w.None? then None else Next(srv, w.value, acts[|acts| - 1])
  }

  // ---- What every handler and request keeps ----

  /** Between its registration and its unregistration. */
  predicate Holding(pc: Pc) {
    pc.Publishing? || pc.Evicting? || pc == Acking || pc == AckFailed || pc == Readying || pc == Running
    || pc == Unregistering
  }

  /** No ack has been written, and none will be if it already failed. */
  predicate BeforeAck(pc: Pc) {
    pc.Claiming? || pc.Publishing? || pc.Evicting? || pc == Acking || pc == AckFailed || pc == Closing
  }

  predicate Acked(x: Handler) {
    x.wire != [] && x.wire[0] == AckOk
  }

  /** The ack line, if any, comes first; mux frames only after it. */
  predicate WireOk(wire: seq<WireEvent>) {
    wire == [] || wire == [AckNo] || (wire[0] == AckOk && forall k :: 0 < k < |wire| ==> wire[k] == MuxFrame)
  }

  /** The name a handler registers is the one it asked for, or a generated one. */
  predicate NameOk(srv: Server, x: Handler) {
    if x.adm.sub != "" then x.name == x.adm.sub
    else Auth.ValidSubdomain(x.name) && x.name !in srv.auth.reservedNames
  }

  ghost predicate HandlerInv(srv: Server, x: Handler) {
    && (x.pc != Rejected && x.adm.isProtected ==> srv.fa.Some?)
    && (Holding(x.pc) ==> NameOk(srv, x))
    && (!x.pc.Claiming? && !x.pc.Publishing? && x.pc != Rejected ==> x.isProtected == x.adm.isProtected)
    && (x.ready ==> (x.pc == Running || x.pc == Unregistering || x.pc == Finishing || x.pc == Done))
    && (x.pc == Running || x.pc == Done ==> x.ready)
    && WireOk(x.wire)
    && (x.pc == Readying || x.pc == Running || x.pc == Unregistering ==> Acked(x))
    && (x.pc == Unregistering || x.pc == Finishing || x.pc == Done ==> x.closed)
    && (BeforeAck(x.pc) ==> x.wire == [] && !x.ready)
    && (x.pc == Rejected ==> x.wire == [AckNo])
    && (x.pc.Claiming? ==> !x.evicted)
  }

  /** A handler holds its name exactly until it lost it. */
  ghost predicate HeldInv(w: World, h: SessionId)
    requires h in w.handlers
  {
    var x := w.handlers[h];
    Holding(x.pc) ==> (x.evicted <==> !(x.name in w.table && w.table[x.name].session == h))
  }

  ghost predicate TableInv(w: World, n: string)
    requires n in w.table
  {
    && w.table[n].session in w.handlers
    && var x := w.handlers[w.table[n].session];
       Holding(x.pc) && x.name == n && x.adm.tokenId == w.table[n].tokenId
  }

  ghost predicate RequestInv(srv: Server, w: World, q: Request) {
    match q
    case Ended => true
    case Waiting(h, _, _) => h in w.handlers && !w.handlers[h].pc.Claiming? && w.handlers[h].pc != Rejected
    case Gated(h, _, _) => h in w.handlers && w.handlers[h].ready
    case Cleared(h, out, cookie, when) => h in w.handlers && w.handlers[h].ready && Vouched(srv, w.handlers[h], out, cookie, when)
    case Proxied(h, out, cookie, when) => h in w.handlers && w.handlers[h].ready && Vouched(srv, w.handlers[h], out, cookie, when)
  }

  /** The identity a forwarded request asserts is the one its viewer proved, if the tunnel asks for one. */
  ghost predicate Vouched(srv: Server, x: Handler, out: FA.Headers, cookie: Option<string>, when: int) {
    if x.adm.isProtected then
      && srv.fa.Some? && cookie.Some?
      && FA.VerifySession(srv.fa.value, cookie.value, when).Ok?
      && FA.Identity(out) == FA.IdentityOf(FA.VerifySession(srv.fa.value, cookie.value, when).value)
    else FA.Identity(out) == FA.NOBODY
  }

  /** The registry and the handlers agree on who holds what. */
  ghost predicate Agreed(w: World) {
    && (forall g :: g in w.handlers ==> HeldInv(w, g))
    && (forall n :: n in w.table ==> TableInv(w, n))
  }

  ghost predicate Sound(srv: Server, w: World) {
    forall h :: h in w.handlers ==> HandlerInv(srv, w.handlers[h])
  }

  ghost predicate Served(srv: Server, w: World) {
    forall r :: r in w.requests ==> RequestInv(srv, w, w.requests[r])
  }

  ghost predicate Inv(srv: Server, w: World) {
    Sound(srv, w) && Agreed(w) && Served(srv, w)
  }

  /** An admission that passed the checks of its handshake. */
  ghost predicate AdmOk(srv: Server, m: Auth.Admission) {
    Auth.Admit(srv.auth, srv.lower, m.hello, m.overTLS, m.at, srv.fa.Some?) == Ok(m)
  }

  /** What a request relies on about its tunnel's handler is never taken back. */
  ghost predicate Advanced(x: Handler, x': Handler) {
    && x'.adm == x.adm && (x.ready ==> x'.ready)
    && (!x.pc.Claiming? && x.pc != Rejected ==> !x'.pc.Claiming? && x'.pc != Rejected)
  }

  lemma RequestsKept(srv: Server, w: World, w': World)
    requires Served(srv, w)
    requires w'.requests == w.requests
    requires forall h :: h in w.handlers ==> h in w'.handlers && Advanced(w.handlers[h], w'.handlers[h])
    ensures Served(srv, w')
  {
    forall r | r in w'.requests ensures RequestInv(srv, w', w'.requests[r]) {
      assert RequestInv(srv, w, w.requests[r]);
    }
  }

  /** A handler that keeps its hold, or has none, changes nothing about the others. */
  lemma TouchHeld(w: World, h: SessionId, x: Handler)
    requires Agreed(w)
    requires if h in w.handlers then
               var y := w.handlers[h];
               && x.adm == y.adm && (Holding(y.pc) <==> Holding(x.pc))
               && (Holding(y.pc) ==> x.name == y.name && x.evicted == y.evicted)
             else !Holding(x.pc)
    ensures Agreed(SetHandler(w, h, x))
  {
    var w' := SetHandler(w, h, x);
    forall n | n in w'.table ensures TableInv(w', n) { assert TableInv(w, n); }
    forall g | g in w'.handlers ensures HeldInv(w', g) {
      assert g in w.handlers ==> HeldInv(w, g);
    }
  }

  /** A handler lets go of its name, and the registry of the handler. */
  lemma ReleaseHeld(w: World, h: SessionId, x: Handler)
    requires Agreed(w) && h in w.handlers && x.name == w.handlers[h].name && !Holding(x.pc)
    ensures Agreed(SetHandler(w, h, x).(table := Released(w.table, x.name, h)))
  {
    var w' := SetHandler(w, h, x).(table := Released(w.table, x.name, h));
    forall n | n in w'.table ensures TableInv(w', n) { assert TableInv(w, n); }
    forall g | g in w'.handlers ensures HeldInv(w', g) {
      assert HeldInv(w, g);
    }
  }

  lemma TouchSound(srv: Server, w: World, h: SessionId, x: Handler)
    requires Sound(srv, w) && HandlerInv(srv, x)
    ensures Sound(srv, SetHandler(w, h, x))
  {
  }

  lemma TouchServed(srv: Server, w: World, h: SessionId, x: Handler)
    requires Served(srv, w) && (h in w.handlers ==> Advanced(w.handlers[h], x))
    ensures Served(srv, SetHandler(w, h, x))
  {
    RequestsKept(srv, w, SetHandler(w, h, x));
  }

  lemma HandlerSound(srv: Server, w: World, h: SessionId)
    requires Inv(srv, w) && h in w.handlers
    ensures HandlerInv(srv, w.handlers[h])
  {
  }

  /** Replacing handler `h` by one as good, registry and requests untouched. */
  lemma TouchHandler(srv: Server, w: World, h: SessionId, x: Handler)
    requires Inv(srv, w) && h in w.handlers && HandlerInv(srv, x)
    requires var y := w.handlers[h];
             && Advanced(y, x) && (Holding(y.pc) <==> Holding(x.pc))
             && (Holding(y.pc) ==> x.name == y.name && x.evicted == y.evicted)
    ensures Inv(srv, SetHandler(w, h, x))
  {
    TouchSound(srv, w, h, x);
    TouchHeld(w, h, x);
    TouchServed(srv, w, h, x);
  }

  lemma NewHandler(srv: Server, w: World, h: SessionId, hello: Auth.Hello, overTLS: bool, at: Auth.Clocked)
    ensures var w' := ConnectNext(srv, w, h, hello, overTLS, at);
            && w' == SetHandler(w, h, w'.handlers[h])
            && HandlerInv(srv, w'.handlers[h]) && !Holding(w'.handlers[h].pc)
            && (w'.handlers[h].pc != Rejected ==> AdmOk(srv, w'.handlers[h].adm))
  {
    NewAdmission(srv, hello, overTLS, at);
  }

  lemma NewAdmission(srv: Server, hello: Auth.Hello, overTLS: bool, at: Auth.Clocked)
    ensures var r := Auth.Admit(srv.auth, srv.lower, hello, overTLS, at, srv.fa.Some?);
            r.Ok? ==> AdmOk(srv, r.value) && (r.value.isProtected ==> srv.fa.Some?)
  {
  }

  lemma ConnectKeeps(srv: Server, w: World, h: SessionId, hello: Auth.Hello, overTLS: bool, at: Auth.Clocked)
    requires Inv(srv, w) && h !in w.handlers
    ensures Inv(srv, ConnectNext(srv, w, h, hello, overTLS, at))
  {
    var w' := ConnectNext(srv, w, h, hello, overTLS, at);
    NewHandler(srv, w, h, hello, overTLS, at);
    TouchSound(srv, w, h, w'.handlers[h]);
    TouchHeld(w, h, w'.handlers[h]);
    TouchServed(srv, w, h, w'.handlers[h]);
  }

  /** The two handlers a registration touches stay sound by themselves. */
  lemma GrantLocal(srv: Server, x: Handler, name: string, loser: Option<SessionId>)
    requires HandlerInv(srv, x)
    ensures x.pc.Claiming? && NameOk(srv, x.(name := name)) ==>
              HandlerInv(srv, x.(pc := Publishing(loser), name := name))
    ensures !x.pc.Claiming? ==> HandlerInv(srv, x.(evicted := true))
  {
  }

  lemma GrantHandlers(srv: Server, w: World, h: SessionId, name: string)
    requires Inv(srv, w) && h in w.handlers && w.handlers[h].pc.Claiming?
    requires NameOk(srv, w.handlers[h].(name := name))
    ensures var w' := Grant(w, h, name);
            Sound(srv, w')
  {
    var w', loser := Grant(w, h, name), Evicted(w.table, name);
    assert name in w.table ==> TableInv(w, name);
    forall g | g in w'.handlers ensures HandlerInv(srv, w'.handlers[g]) {
      assert HandlerInv(srv, w.handlers[g]);
      GrantLocal(srv, w.handlers[g], name, loser);
    }
  }

  lemma GrantHeld(w: World, h: SessionId, name: string)
    requires Agreed(w) && h in w.handlers && w.handlers[h].pc.Claiming? && !w.handlers[h].evicted
    ensures Agreed(Grant(w, h, name))
  {
    var w' := Grant(w, h, name);
    assert name in w.table ==> TableInv(w, name);
    forall n | n in w'.table ensures TableInv(w', n) {
      assert n != name ==> TableInv(w, n);
    }
    forall g | g in w'.handlers ensures HeldInv(w', g) {
      assert HeldInv(w, g);
    }
  }

  lemma GrantRequests(srv: Server, w: World, h: SessionId, name: string)
    requires h in w.handlers && w.handlers[h].pc.Claiming?
    requires Served(srv, w)
    ensures Served(srv, Grant(w, h, name))
  {
    RequestsKept(srv, w, Grant(w, h, name));
  }

  lemma GrantKeeps(srv: Server, w: World, h: SessionId, name: string)
    requires Inv(srv, w) && h in w.handlers && w.handlers[h].pc.Claiming?
    requires NameOk(srv, w.handlers[h].(name := name))
    ensures Inv(srv, Grant(w, h, name))
  {
    GrantHandlers(srv, w, h, name);
    HandlerSound(srv, w, h);
    GrantHeld(w, h, name);
    GrantRequests(srv, w, h, name);
  }

  lemma RerollKeeps(srv: Server, w: World, h: SessionId)
    requires Inv(srv, w) && h in w.handlers && w.handlers[h].pc.Claiming? && w.handlers[h].pc.tries > 0
    ensures var x := w.handlers[h]; Inv(srv, SetHandler(w, h, x.(pc := Claiming(x.pc.tries - 1))))
  {
    var x := w.handlers[h];
    assert HandlerInv(srv, x);
    TouchHandler(srv, w, h, x.(pc := Claiming(x.pc.tries - 1)));
  }

  lemma RejectKeeps(srv: Server, w: World, h: SessionId)
    requires Inv(srv, w) && h in w.handlers && w.handlers[h].pc.Claiming?
    ensures Inv(srv, SetHandler(w, h, Reject(w.handlers[h])))
  {
    var x := w.handlers[h];
    assert HandlerInv(srv, x);
    TouchHandler(srv, w, h, Reject(x));
  }

  /** A turn of the loop gives up, rolls again, or registers a permitted name that may be claimed. */
  lemma ClaimShape(srv: Server, w: World, h: SessionId, random: nat) returns (name: string)
    requires h in w.handlers && w.handlers[h].pc.Claiming?
    ensures var w', x := ClaimNext(srv, w, h, random), w.handlers[h];
            || w' == SetHandler(w, h, Reject(x))
            || (x.pc.tries > 0 && w' == SetHandler(w, h, x.(pc := Claiming(x.pc.tries - 1))))
            || (w' == Grant(w, h, name) && NameOk(srv, x.(name := name)) && MayClaim(w.table, name, x.adm.tokenId, w.stale))
  {
    name := if w.handlers[h].adm.sub == "" then Auth.Digits36(random, 6) else w.handlers[h].adm.sub;
  }

  lemma ClaimKeeps(srv: Server, w: World, h: SessionId, random: nat)
    requires Inv(srv, w) && h in w.handlers && w.handlers[h].pc.Claiming?
    ensures Inv(srv, ClaimNext(srv, w, h, random))
  {
    var name := ClaimShape(srv, w, h, random);
    if NameOk(srv, w.handlers[h].(name := name)) {
      GrantKeeps(srv, w, h, name);
    }
    if w.handlers[h].pc.tries > 0 {
      RerollKeeps(srv, w, h);
    }
    RejectKeeps(srv, w, h);
  }

  lemma ReleaseKeeps(srv: Server, w: World, h: SessionId, x: Handler)
    requires Inv(srv, w) && h in w.handlers && Releases(w.handlers[h].pc)
    requires HandlerInv(srv, x) && Advanced(w.handlers[h], x) && x.name == w.handlers[h].name && !Holding(x.pc)
    ensures Inv(srv, SetHandler(w, h, x).(table := Released(w.table, x.name, h)))
  {
    var w1 := SetHandler(w, h, x);
    TouchSound(srv, w, h, x);
    ReleaseHeld(w, h, x);
    TouchServed(srv, w, h, x);
    RequestsKept(srv, w1, w1.(table := Released(w.table, x.name, h)));
  }

  lemma StepLocal(srv: Server, x: Handler)
    requires HandlerInv(srv, x) && StepHandler(x).Some?
    ensures HandlerInv(srv, StepHandler(x).value)
  {
  }

  lemma StepAdvances(x: Handler)
    requires StepHandler(x).Some?
    ensures var x' := StepHandler(x).value;
            && Advanced(x, x') && x'.name == x.name && x'.evicted == x.evicted
            && (Holding(x'.pc) <==> Holding(x.pc) && !Releases(x.pc))
  {
  }

  lemma StepKeeps(srv: Server, w: World, h: SessionId)
    requires Inv(srv, w) && h in w.handlers
    ensures var r := StepNext(w, h); r.Some? ==> Inv(srv, r.value)
  {
    var x := w.handlers[h];
    assert HandlerInv(srv, x);
    var x' := StepHandler(x);
    if x'.Some? {
      StepLocal(srv, x);
      StepAdvances(x);
      if Releases(x.pc) {
        ReleaseKeeps(srv, w, h, x'.value);
      } else {
        TouchHandler(srv, w, h, x'.value);
      }
    }
  }

  lemma PublishKeeps(srv: Server, w: World, h: SessionId)
    requires Inv(srv, w) && h in w.handlers && w.handlers[h].pc.Publishing?
    ensures Inv(srv, HandlerNext(srv, w, Publish(h)).value)
  {
    HandlerSound(srv, w, h);
    TouchHandler(srv, w, h, HandlerNext(srv, w, Publish(h)).value.handlers[h]);
  }

  lemma CloseKeeps(srv: Server, w: World, h: SessionId)
    requires Inv(srv, w) && h in w.handlers
    ensures Inv(srv, Closed(w, h))
  {
    HandlerSound(srv, w, h);
    TouchHandler(srv, w, h, w.handlers[h].(closed := true));
  }

  lemma EvictedKeeps(srv: Server, w: World, h: SessionId)
    requires Inv(srv, w) && h in w.handlers && w.handlers[h].pc.Evicting?
    ensures Inv(srv, ToAck(w, h))
  {
    HandlerSound(srv, w, h);
    TouchHandler(srv, w, h, w.handlers[h].(pc := Acking));
  }

  lemma EvictKeeps(srv: Server, w: World, h: SessionId)
    requires Inv(srv, w) && h in w.handlers && w.handlers[h].pc.Evicting? && w.handlers[h].pc.loser in w.handlers
    ensures Inv(srv, HandlerNext(srv, w, Evict(h)).value)
  {
    var w1 := Closed(w, w.handlers[h].pc.loser);
    CloseKeeps(srv, w, w.handlers[h].pc.loser);
    EvictedKeeps(srv, w1, h);
    assert HandlerNext(srv, w, Evict(h)) == Some(ToAck(w1, h));
  }

  lemma AckLocal(srv: Server, x: Handler, ok: bool)
    requires HandlerInv(srv, x) && x.pc == Acking
    ensures var x' := Acknowledged(x, ok);
            HandlerInv(srv, x') && Advanced(x, x') && Holding(x'.pc) && x'.name == x.name && x'.evicted == x.evicted
  {
  }

  lemma AckKeeps(srv: Server, w: World, h: SessionId, ok: bool)
    requires Inv(srv, w) && h in w.handlers && w.handlers[h].pc == Acking
    ensures Inv(srv, SetHandler(w, h, Acknowledged(w.handlers[h], ok)))
  {
    HandlerSound(srv, w, h);
    AckLocal(srv, w.handlers[h], ok);
    TouchHandler(srv, w, h, Acknowledged(w.handlers[h], ok));
  }

  /** A mux frame on a live session that is ready: the handler is running, so the ack is out. */
  lemma FrameKeeps(srv: Server, w: World, h: SessionId)
    requires Inv(srv, w) && h in w.handlers && w.handlers[h].ready && !w.handlers[h].closed
    ensures w.handlers[h].pc == Running
    ensures Inv(srv, SetHandler(w, h, w.handlers[h].(wire := w.handlers[h].wire + [MuxFrame])))
  {
    var x := w.handlers[h];
    assert HandlerInv(srv, x);
    TouchHandler(srv, w, h, x.(wire := x.wire + [MuxFrame]));
  }

  lemma HandlerKeeps(srv: Server, w: World, a: Action)
    requires Inv(srv, w) && (a.Claim? || a.Publish? || a.Evict? || a.Ack? || a.Step? || a.Beat?)
    requires HandlerNext(srv, w, a).Some?
    ensures Inv(srv, HandlerNext(srv, w, a).value)
  {
    match a
    case Claim(h, random) => ClaimKeeps(srv, w, h, random);
    case Publish(h) => PublishKeeps(srv, w, h);
    case Evict(h) => EvictKeeps(srv, w, h);
    case Ack(h, ok) => AckKeeps(srv, w, h, ok);
    case Step(h) => StepKeeps(srv, w, h);
    case Beat(h) =>
      HandlerSound(srv, w, h);
      FrameKeeps(srv, w, h);
  }

  /** Only request `r` moved. */
  lemma TouchRequest(srv: Server, w: World, r: nat, q: Request)
    requires Inv(srv, w) && RequestInv(srv, w, q)
    ensures Inv(srv, w.(requests := w.requests[r := q]))
  {
    var w' := w.(requests := w.requests[r := q]);
    forall n | n in w'.table ensures TableInv(w', n) { assert TableInv(w, n); }
    forall h | h in w'.handlers ensures HeldInv(w', h) { assert HeldInv(w, h); }
    forall k | k in w'.requests ensures RequestInv(srv, w', w'.requests[k]) {
      assert k != r ==> RequestInv(srv, w, w.requests[k]);
    }
  }

  /** The gate of a tunnel past its ready gate lets through only vouched requests. */
  lemma GateVouches(srv: Server, x: Handler, headers: FA.Headers, cookie: Option<string>, when: int)
    requires HandlerInv(srv, x) && x.ready
    ensures var out := FA.Gate(srv.fa, x.isProtected, headers, cookie, when);
            out.Some? ==> Vouched(srv, x, out.value, cookie, when)
  {
    FA.GateIdentity(srv.fa, x.isProtected, headers, cookie, when);
  }

  lemma RequestKeeps(srv: Server, w: World, a: Action)
    requires Inv(srv, w) && (a.PassReady? || a.PassGate? || a.OpenStream? || a.GiveUp?)
    requires RequestNext(srv, w, a).Some?
    ensures Inv(srv, RequestNext(srv, w, a).value)
  {
    var q, w' := w.requests[a.r], RequestNext(srv, w, a).value;
    assert RequestInv(srv, w, q);
    if a.OpenStream? && !w.handlers[q.h].closed {
      FrameKeeps(srv, w, q.h);
      var x := w.handlers[q.h];
      TouchRequest(srv, SetHandler(w, q.h, x.(wire := x.wire + [MuxFrame])), a.r, w'.requests[a.r]);
    } else {
      if a.PassGate? {
        GateVouches(srv, w.handlers[q.h], q.headers, q.cookie, a.when);
      }
      TouchRequest(srv, w, a.r, w'.requests[a.r]);
    }
  }

  lemma SetStaleKeeps(srv: Server, w: World, stale: set<SessionId>)
    requires Inv(srv, w)
    ensures Inv(srv, w.(stale := stale))
  {
    var w' := w.(stale := stale);
    forall h | h in w'.handlers ensures HeldInv(w', h) { assert HeldInv(w, h); }
    forall n | n in w'.table ensures TableInv(w', n) { assert TableInv(w, n); }
    RequestsKept(srv, w, w');
  }

  lemma ArriveKeeps(srv: Server, w: World, r: nat, name: string, headers: FA.Headers, cookie: Option<string>)
    requires Inv(srv, w) && r !in w.requests
    ensures Inv(srv, Next(srv, w, Arrive(r, name, headers, cookie)).value)
  {
    if name in w.table {
      assert TableInv(w, name);
    }
    TouchRequest(srv, w, r, Next(srv, w, Arrive(r, name, headers, cookie)).value.requests[r]);
  }

  lemma NextKeeps(srv: Server, w: World, a: Action)
    requires Inv(srv, w) && Next(srv, w, a).Some?
    ensures Inv(srv, Next(srv, w, a).value)
  {
    match a
    case Connect(h, hello, overTLS, at) => ConnectKeeps(srv, w, h, hello, overTLS, at);
    case SetStale(s) => SetStaleKeeps(srv, w, s);
    case Arrive(r, name, headers, cookie) =>
      if r !in w.requests {
        ArriveKeeps(srv, w, r, name, headers, cookie);
      }
    case _ =>
      if a.Claim? || a.Publish? || a.Evict? || a.Ack? || a.Step? || a.Beat? {
        HandlerKeeps(srv, w, a);
      } else {
        RequestKeeps(srv, w, a);
      }
  }

  /** The invariant holds in every reachable state. */
  lemma {:induction false} Always(srv: Server, acts: seq<Action>)
    requires Run(srv, acts).Some?
    ensures Inv(srv, Run(srv, acts).value)
  {
    if acts != [] {
      var init := acts[..|acts| - 1];
      Always(srv, init);
      NextKeeps(srv, Run(srv, init).value, acts[|acts| - 1]);
    }
  }
}

/** What holds in every run of the tunnel server. */
module TunnelTheorems {
  import opened Basics
  import opened Registry
  import opened Tunnel
  import Auth
  import Token
  import FA = ForwardAuth

  // ---- Who holds a name ----

  /** Every handler past its checks passed them with the admission it still carries. */
  ghost predicate Admitted(srv: Server, w: World) {
    forall h :: h in w.handlers ==> w.handlers[h].pc == Rejected || AdmOk(srv, w.handlers[h].adm)
  }

  /** No step of a handler or request changes an admission or takes a rejection back. */
  ghost predicate SameAdmissions(w: World, w': World) {
    && (forall h :: h in w'.handlers ==> h in w.handlers)
    && (forall h :: h in w.handlers ==> h in w'.handlers && SameAdmission(w.handlers[h], w'.handlers[h]))
  }

  ghost predicate SameAdmission(x: Handler, x': Handler) {
    x'.adm == x.adm && (x.pc == Rejected ==> x'.pc == Rejected)
  }

  lemma NextSameAdmissions(srv: Server, w: World, a: Action)
    requires Next(srv, w, a).Some? && !a.Connect?
    ensures SameAdmissions(w, Next(srv, w, a).value)
  {
    match a
    case Claim(h, random) => ClaimSameAdmissions(srv, w, h, random);
    case Evict(h) => EvictSameAdmissions(w, h, w.handlers[h].pc.loser);
    case Step(h) => StepSameAdmissions(w, h);
    case Publish(h) => SetSameAdmissions(w, h, Next(srv, w, a).value);
    case Ack(h, _) => SetSameAdmissions(w, h, Next(srv, w, a).value);
    case Beat(h) => SetSameAdmissions(w, h, Next(srv, w, a).value);
    case SetStale(_) =>
    case Arrive(_, _, _, _) =>
    case _ => RequestSameAdmissions(srv, w, a);
  }

  lemma SetSameAdmissions(w: World, h: SessionId, w': World)
    requires h in w.handlers && h in w'.handlers && w'.handlers == w.handlers[h := w'.handlers[h]]
    requires SameAdmission(w.handlers[h], w'.handlers[h])
    ensures SameAdmissions(w, w')
  {
  }

  lemma StepSameAdmissions(w: World, h: SessionId)
    requires h in w.handlers && StepNext(w, h).Some?
    ensures SameAdmissions(w, StepNext(w, h).value)
  {
    SetSameAdmissions(w, h, StepNext(w, h).value);
  }

  lemma EvictSameAdmissions(w: World, h: SessionId, loser: SessionId)
    requires h in w.handlers && w.handlers[h].pc.Evicting? && loser in w.handlers
    ensures SameAdmissions(w, ToAck(Closed(w, loser), h))
  {
    SetSameAdmissions(w, loser, Closed(w, loser));
    SetSameAdmissions(Closed(w, loser), h, ToAck(Closed(w, loser), h));
  }

  lemma ClaimSameAdmissions(srv: Server, w: World, h: SessionId, random: nat)
    requires h in w.handlers && w.handlers[h].pc.Claiming?
    ensures SameAdmissions(w, ClaimNext(srv, w, h, random))
  {
    var name := ClaimShape(srv, w, h, random);
  }

  lemma RequestSameAdmissions(srv: Server, w: World, a: Action)
    requires a.PassReady? || a.PassGate? || a.OpenStream? || a.GiveUp?
    requires RequestNext(srv, w, a).Some?
    ensures SameAdmissions(w, RequestNext(srv, w, a).value)
  {
  }

  lemma {:induction false} AllAdmitted(srv: Server, acts: seq<Action>)
    requires Run(srv, acts).Some?
    ensures Admitted(srv, Run(srv, acts).value)
  {
    if acts != [] {
      var init, a := acts[..|acts| - 1], acts[|acts| - 1];
      AllAdmitted(srv, init);
      NextAdmitted(srv, Run(srv, init).value, a);
    }
  }

  lemma NextAdmitted(srv: Server, w: World, a: Action)
    requires Admitted(srv, w) && Next(srv, w, a).Some?
    ensures Admitted(srv, Next(srv, w, a).value)
  {
    if a.Connect? {
      NewHandler(srv, w, a.h, a.hello, a.overTLS, a.at);
    } else {
      NextSameAdmissions(srv, w, a);
      SameAdmitted(srv, w, Next(srv, w, a).value);
    }
  }

  lemma SameAdmitted(srv: Server, w: World, w': World)
    requires Admitted(srv, w) && SameAdmissions(w, w')
    ensures Admitted(srv, w')
  {
  }

  /**
    In every reachable state, whoever holds a name is a connection between its
    registration and its unregistration, filed under that name with its own token
    id, admitted and entitled to the name; a name the server made up is valid and
    not reserved.
   */
  lemma HolderIsEntitled(srv: Server, acts: seq<Action>, n: string)
    requires Auth.WellFormed(srv.auth)
    requires Run(srv, acts).Some? && n in Run(srv, acts).value.table
    ensures var w := Run(srv, acts).value;
            var h := w.table[n].session;
            && h in w.handlers
            && var x := w.handlers[h];
               && Holding(x.pc) && x.name == n && !x.evicted && w.table[n].tokenId == x.adm.tokenId
               && AdmOk(srv, x.adm) && Auth.Entitled(srv.auth, x.adm, n)
               && (x.adm.sub == "" ==> Auth.ValidSubdomain(n) && !srv.auth.IsReserved(n))
  {
    var w := Run(srv, acts).value;
    Always(srv, acts);
    AllAdmitted(srv, acts);
    assert TableInv(w, n);
    var h := w.table[n].session;
    assert HeldInv(w, h) && HandlerInv(srv, w.handlers[h]);
    var m := w.handlers[h].adm;
    Auth.AdmittedIsEntitled(srv.auth, srv.lower, m.hello, m.overTLS, m.at, srv.fa.Some?);
    if m.sub == "" {
      Auth.GeneratedIsEntitled(srv.auth, srv.lower, m.hello, m.overTLS, m.at, srv.fa.Some?, n);
    }
  }

  /** A connection holds at most one name, and a connection that never lost its name holds it until it unregisters. */
  lemma OneNameEach(srv: Server, acts: seq<Action>)
    requires Run(srv, acts).Some?
    ensures var w := Run(srv, acts).value;
            && (forall n1, n2 :: n1 in w.table && n2 in w.table && w.table[n1].session == w.table[n2].session ==> n1 == n2)
            && (forall h :: h in w.handlers && Holding(w.handlers[h].pc) ==>
                  (!w.handlers[h].evicted <==>
                   w.handlers[h].name in w.table && w.table[w.handlers[h].name].session == h))
  {
    var w := Run(srv, acts).value;
    Always(srv, acts);
    forall n1, n2 | n1 in w.table && n2 in w.table && w.table[n1].session == w.table[n2].session ensures n1 == n2 {
      assert TableInv(w, n1) && TableInv(w, n2);
    }
    forall h | h in w.handlers && Holding(w.handlers[h].pc)
      ensures !w.handlers[h].evicted <==> w.handlers[h].name in w.table && w.table[w.handlers[h].name].session == h
    {
      assert HeldInv(w, h);
    }
  }

  // ---- How a name changes hands ----

  /** Name `n` passes from one state to the next untouched. */
  predicate Untouched(t: Table, t': Table, n: string) {
    (n in t <==> n in t') && (n in t ==> t[n] == t'[n])
  }

  /** The connection `h` registers `n` in this step. */
  predicate Registers(w: World, w': World, a: Action, n: string) {
    && a.Claim? && a.h in w.handlers && w.handlers[a.h].pc.Claiming?
    && n in w'.table && w'.table[n] == Entry(a.h, w.handlers[a.h].adm.tokenId)
  }

  /** The holder `h` of `n` gives it up itself, on its way out. */
  predicate GivesUp(w: World, w': World, a: Action, n: string) {
    && a.Step? && a.h in w.handlers && (w.handlers[a.h].pc == AckFailed || w.handlers[a.h].pc == Unregistering)
    && n in w.table && w.table[n].session == a.h && n !in w'.table
  }

  lemma ClaimChanges(srv: Server, w: World, h: SessionId, random: nat, n: string)
    requires h in w.handlers && w.handlers[h].pc.Claiming?
    ensures var w', a := ClaimNext(srv, w, h, random), Claim(h, random);
            || Untouched(w.table, w'.table, n)
            || (Registers(w, w', a, n) && MayClaim(w.table, n, w.handlers[h].adm.tokenId, w.stale))
  {
    var name := ClaimShape(srv, w, h, random);
  }

  lemma OtherChanges(srv: Server, w: World, a: Action, n: string)
    requires Next(srv, w, a).Some? && !a.Claim?
    ensures var w' := Next(srv, w, a).value;
            Untouched(w.table, w'.table, n) || GivesUp(w, w', a, n)
  {
  }

  /**
    In every run, the entry of a name changes in three ways only: its holder gives
    it up on its way out; a connection claims it while it is free; or a connection
    with the holder's own non-empty token id claims it while the holder is stale.
   */
  lemma HowANameChanges(srv: Server, acts: seq<Action>, a: Action, n: string)
    requires Run(srv, acts + [a]).Some? && Run(srv, acts).Some?
    requires !Untouched(Run(srv, acts).value.table, Run(srv, acts + [a]).value.table, n)
    ensures var w, w' := Run(srv, acts).value, Run(srv, acts + [a]).value;
            || GivesUp(w, w', a, n)
            || (Registers(w, w', a, n) && n !in w.table)
            || (&& Registers(w, w', a, n) && n in w.table
                && w.table[n].session != a.h && w.table[n].session in w.stale
                && w'.table[n].tokenId == w.table[n].tokenId != "")
  {
    var w := Run(srv, acts).value;
    assert (acts + [a])[..|acts|] == acts;
    if a.Claim? {
      ClaimChanges(srv, w, a.h, a.random, n);
      Always(srv, acts);
      assert n in w.table ==> TableInv(w, n);
    } else {
      OtherChanges(srv, w, a, n);
    }
  }

  /** Once a connection has lost its name, nothing it does changes any name, its late unregistration included. */
  lemma EvictedIsHarmless(srv: Server, acts: seq<Action>, a: Action, n: string)
    requires Run(srv, acts).Some? && Next(srv, Run(srv, acts).value, a).Some?
    requires a.Claim? || a.Publish? || a.Evict? || a.Ack? || a.Step? || a.Beat?
    requires var w := Run(srv, acts).value; a.h in w.handlers && w.handlers[a.h].evicted
    ensures Untouched(Run(srv, acts).value.table, Next(srv, Run(srv, acts).value, a).value.table, n)
  {
    var w := Run(srv, acts).value;
    Always(srv, acts);
    assert HandlerInv(srv, w.handlers[a.h]) && HeldInv(w, a.h);
    assert n in w.table ==> TableInv(w, n);
    if !a.Claim? {
      OtherChanges(srv, w, a, n);
    }
  }

  // ---- Names an operator mints ----

  /** Exactly which held names are valid: all but the scopes a signed token carries unchecked. */
  lemma HeldNameIsValid(srv: Server, acts: seq<Action>, n: string)
    requires Auth.WellFormed(srv.auth)
    requires Run(srv, acts).Some? && n in Run(srv, acts).value.table
    ensures var w := Run(srv, acts).value;
            var h := w.table[n].session;
            && h in w.handlers
            && var m := w.handlers[h].adm;
               Auth.ValidSubdomain(n) <==>
                 !(srv.auth.IsSigned(m.hello.tok) && srv.auth.Parse(m.at, m.hello.tok).Ok?
                   && srv.auth.Parse(m.at, m.hello.tok).value.sub != ""
                   && !Auth.ValidSubdomain(srv.auth.Parse(m.at, m.hello.tok).value.sub))
  {
    var w := Run(srv, acts).value;
    HolderIsEntitled(srv, acts, n);
    Always(srv, acts);
    var x := w.handlers[w.table[n].session];
    assert HandlerInv(srv, x);
    Auth.NameIsValid(srv.auth, srv.lower, x.adm.hello, x.adm.overTLS, x.adm.at, srv.fa.Some?);
  }

  /** A token the server's own key was used to mint, as it is presented. */
  function MintedHello(srv: Server, env: Token.Env, c: Token.Claims): Auth.Hello {
    var tok := Token.MintWith(env, srv.auth.signing, c);
    Auth.Hello(if tok.Ok? then tok.value else "", "", false)
  }

  lemma MintedIsAdmitted(srv: Server, c: Token.Claims, at: Auth.Clocked)
    requires Auth.WellFormed(srv.auth) && srv.auth.signing != [] && Token.JsonOk(at.env, c)
    requires Token.Verdict(c, at.now).Ok? && c.id !in srv.auth.revoked && !c.prot
    requires c.sub != "" && !srv.auth.IsReserved(c.sub)
    ensures var hello := MintedHello(srv, at.env, c);
            Auth.Admit(srv.auth, srv.lower, hello, true, at, srv.fa.Some?)
            == Ok(Auth.Admission(hello, true, at, c.sub, false, c.id))
  {
    Token.MintParse(at.env, srv.auth.signing, c, at.now);
    assert srv.auth.Parse(at, MintedHello(srv, at.env, c).tok) == Ok(c);
  }

  /** On a server nobody has connected to, an admitted name is held after one claim. */
  lemma FirstClaimHolds(srv: Server, hello: Auth.Hello, overTLS: bool, at: Auth.Clocked, m: Auth.Admission)
    requires Auth.Admit(srv.auth, srv.lower, hello, overTLS, at, srv.fa.Some?) == Ok(m) && m.sub != ""
    ensures var w := Run(srv, [Connect(0, hello, overTLS, at), Claim(0, 0)]);
            w.Some? && m.sub in w.value.table
  {
    RunTwo(srv, Connect(0, hello, overTLS, at), Claim(0, 0));
    assert ConnectNext(srv, START, 0, hello, overTLS, at)
        == SetHandler(START, 0, Handler(m, Claiming(TRIES), "", false, false, false, [], false));
  }

  /** Whatever scope a token is minted for, its holder can hold it: nothing looks at the scope's letters. */
  lemma MintedScopeIsHeld(srv: Server, c: Token.Claims, at: Auth.Clocked) returns (acts: seq<Action>)
    requires Auth.WellFormed(srv.auth) && srv.auth.signing != [] && Token.JsonOk(at.env, c)
    requires Token.Verdict(c, at.now).Ok? && c.id !in srv.auth.revoked && !c.prot
    requires c.sub != "" && !srv.auth.IsReserved(c.sub)
    ensures Run(srv, acts).Some? && c.sub in Run(srv, acts).value.table
  {
    var hello := MintedHello(srv, at.env, c);
    MintedIsAdmitted(srv, c, at);
    FirstClaimHolds(srv, hello, true, at, Auth.Admission(hello, true, at, c.sub, false, c.id));
    acts := [Connect(0, hello, true, at), Claim(0, 0)];
  }

  /** So a name that is no subdomain can be held. */
  lemma InvalidNameCanBeHeld() returns (srv: Server, acts: seq<Action>)
    ensures Auth.WellFormed(srv.auth)
    ensures Run(srv, acts).Some? && "No_Name" in Run(srv, acts).value.table && !Auth.ValidSubdomain("No_Name")
  {
    var c := Token.Claims("No_Name", 0, "id", false);
    var env := Token.Env((k: seq<byte>, p: seq<byte>) => p, c => [7], b => Some(c));
    srv := Server(Auth.Authenticator({}, map[], map[], [1], {}, false), (x: char) => x, None);
    acts := MintedScopeIsHeld(srv, c, Auth.Clocked(env, 0));
    assert "No_Name"[2] == '_';
  }

  lemma RunTwo(srv: Server, a: Action, b: Action)
    ensures var w := Next(srv, START, a); Run(srv, [a, b]) == if w.None? then None else Next(srv, w.value, b)
  {
    assert [a][..0] == [] && [a, b][..1] == [a];
    assert Run(srv, [a]) == Next(srv, START, a);
  }

  // ---- The ready gate ----

  /** On every connection, in every run: nothing precedes the ack, and frames follow only an ack that said ok. */
  lemma AckComesFirst(srv: Server, acts: seq<Action>, h: SessionId, k: nat)
    requires Run(srv, acts).Some? && h in Run(srv, acts).value.handlers
    requires k < |Run(srv, acts).value.handlers[h].wire|
    ensures var x := Run(srv, acts).value.handlers[h];
            && (x.wire[k] == MuxFrame <==> k > 0)
            && (x.wire[k] == MuxFrame ==> x.wire[0] == AckOk && !BeforeAck(x.pc) && x.pc != Rejected)
            && (x.pc == Rejected ==> x.wire == [AckNo])
  {
    Always(srv, acts);
    assert HandlerInv(srv, Run(srv, acts).value.handlers[h]);
  }

  /**
    A request about to be authorized reads the flag the handshake settled, and a
    request let through to a tunnel carries exactly the identity its viewer proved
    if the client or its token asked for protection, and none otherwise.
   */
  lemma ProxiedIsVouched(srv: Server, acts: seq<Action>, r: nat)
    requires Run(srv, acts).Some? && r in Run(srv, acts).value.requests
    ensures var w := Run(srv, acts).value;
            var q := w.requests[r];
            q.Gated? || q.Cleared? || q.Proxied? ==>
              && q.h in w.handlers
              && var x := w.handlers[q.h];
                 && x.ready
                 && (x.isProtected <==> x.adm.hello.isProtected || srv.auth.ProtectedByToken(x.adm.at, x.adm.hello.tok))
                 && (q.Gated? ||
                     if !x.isProtected then FA.Identity(q.out) == FA.NOBODY
                     else
                       && srv.fa.Some? && q.cookie.Some? && FA.VerifySession(srv.fa.value, q.cookie.value, q.when).Ok?
                       && FA.Identity(q.out)
                          == FA.IdentityOf(FA.VerifySession(srv.fa.value, q.cookie.value, q.when).value))
  {
    var w := Run(srv, acts).value;
    var q := w.requests[r];
    Always(srv, acts);
    AllAdmitted(srv, acts);
    assert RequestInv(srv, w, q);
    if q.Gated? || q.Cleared? || q.Proxied? {
      assert HandlerInv(srv, w.handlers[q.h]);
      ProtectionIsSettled(srv, w.handlers[q.h].adm);
    }
  }

  lemma ProtectionIsSettled(srv: Server, m: Auth.Admission)
    requires AdmOk(srv, m)
    ensures m.isProtected <==> m.hello.isProtected || srv.auth.ProtectedByToken(m.at, m.hello.tok)
  {
  }

  // ---- Nobody waits for ever ----

  /** A handler that evicted somebody evicted a connection there is. */
  predicate LoserKnown(w: World, h: SessionId)
    requires h in w.handlers
  {
    var pc := w.handlers[h].pc;
    && (pc.Publishing? && pc.evicted.Some? ==> pc.evicted.value in w.handlers)
    && (pc.Evicting? ==> pc.loser in w.handlers)
  }

  ghost predicate LosersKnown(w: World) {
    forall h :: h in w.handlers ==> LoserKnown(w, h)
  }

  /** One handler steps; no other program counter moves. */
  lemma OneSteps(w: World, w': World, h: SessionId)
    requires LosersKnown(w) && h in w'.handlers && LoserKnown(w', h)
    requires forall g :: g in w.handlers ==> g in w'.handlers
    requires forall g :: g in w'.handlers && g != h ==> g in w.handlers && w'.handlers[g].pc == w.handlers[g].pc
    ensures LosersKnown(w')
  {
    forall g | g in w'.handlers ensures LoserKnown(w', g) {
      assert g != h ==> LoserKnown(w, g);
    }
  }

  lemma ClaimLosers(srv: Server, w: World, h: SessionId, random: nat)
    requires Inv(srv, w) && LosersKnown(w) && h in w.handlers && w.handlers[h].pc.Claiming?
    ensures LosersKnown(ClaimNext(srv, w, h, random))
  {
    var name := ClaimShape(srv, w, h, random);
    assert name in w.table ==> TableInv(w, name);
    OneSteps(w, ClaimNext(srv, w, h, random), h);
  }

  lemma EvictLosers(w: World, h: SessionId, loser: SessionId)
    requires LosersKnown(w) && h in w.handlers && loser in w.handlers
    ensures LosersKnown(ToAck(Closed(w, loser), h))
  {
    OneSteps(w, ToAck(Closed(w, loser), h), h);
  }

  lemma HandlerLosers(srv: Server, w: World, a: Action)
    requires Inv(srv, w) && LosersKnown(w) && (a.Claim? || a.Publish? || a.Evict? || a.Ack? || a.Step? || a.Beat?)
    requires HandlerNext(srv, w, a).Some?
    ensures LosersKnown(HandlerNext(srv, w, a).value)
  {
    assert LoserKnown(w, a.h);
    if a.Claim? {
      ClaimLosers(srv, w, a.h, a.random);
    } else if a.Evict? {
      EvictLosers(w, a.h, w.handlers[a.h].pc.loser);
    } else {
      OneSteps(w, HandlerNext(srv, w, a).value, a.h);
    }
  }

  lemma RequestLosers(srv: Server, w: World, a: Action)
    requires LosersKnown(w) && (a.PassReady? || a.PassGate? || a.OpenStream? || a.GiveUp?)
    requires RequestNext(srv, w, a).Some?
    ensures LosersKnown(RequestNext(srv, w, a).value)
  {
    var w' := RequestNext(srv, w, a).value;
    forall g | g in w'.handlers ensures LoserKnown(w', g) {
      assert g in w.handlers && LoserKnown(w, g);
    }
  }

  lemma NextLosers(srv: Server, w: World, a: Action)
    requires Inv(srv, w) && LosersKnown(w) && Next(srv, w, a).Some?
    ensures LosersKnown(Next(srv, w, a).value)
  {
    match a
    case Connect(h, hello, overTLS, at) =>
      NewHandler(srv, w, h, hello, overTLS, at);
      OneSteps(w, Next(srv, w, a).value, h);
    case SetStale(_) => assert forall h :: h in w.handlers ==> LoserKnown(Next(srv, w, a).value, h) == LoserKnown(w, h);
    case Arrive(_, _, _, _) => assert forall h :: h in w.handlers ==> LoserKnown(Next(srv, w, a).value, h) == LoserKnown(w, h);
    case _ =>
      if a.Claim? || a.Publish? || a.Evict? || a.Ack? || a.Step? || a.Beat? {
        HandlerLosers(srv, w, a);
      } else {
        RequestLosers(srv, w, a);
      }
  }

  lemma {:induction false} AllLosersKnown(srv: Server, acts: seq<Action>)
    requires Run(srv, acts).Some?
    ensures LosersKnown(Run(srv, acts).value)
  {
    if acts != [] {
      var init := acts[..|acts| - 1];
      AllLosersKnown(srv, init);
      Always(srv, init);
      NextLosers(srv, Run(srv, init).value, acts[|acts| - 1]);
    }
  }

  /** The next thing a registered handler does, left to itself. */
  function OwnAction(h: SessionId, pc: Pc): Action {
    match pc
    case Publishing(_) => Publish(h)
    case Evicting(_) => Evict(h)
    case Acking => Ack(h, true)
    case _ => Step(h)
  }

  /** How many steps a handler may take before it closes `ready`, if its ack fails. */
  function Distance(x: Handler): nat {
    if x.ready then 0
    else match x.pc
      case Publishing(loser) => if loser.Some? then 6 else 5
      case Evicting(_) => 5
      case Acking => 4
      case AckFailed => 3
      case Closing => 2
      case Unregistering => 2
      case _ => 1
  }

  predicate Registered(w: World, h: SessionId) {
    h in w.handlers && !w.handlers[h].pc.Claiming? && w.handlers[h].pc != Rejected
  }

  /** From `w` to `w'`, handler `h` got nearer to closing `ready`. */
  predicate Nearer(w: World, h: SessionId, w': World)
    requires h in w.handlers
  {
    Registered(w', h) && w'.requests == w.requests && Distance(w'.handlers[h]) < Distance(w.handlers[h])
  }

  lemma StepNearer(w: World, h: SessionId)
    requires Registered(w, h) && StepHandler(w.handlers[h]).Some? && !w.handlers[h].ready && w.handlers[h].pc != Running
    ensures StepNext(w, h).Some? && Nearer(w, h, StepNext(w, h).value)
  {
  }

  lemma EvictNearer(w: World, h: SessionId, loser: SessionId)
    requires Registered(w, h) && w.handlers[h].pc.Evicting? && !w.handlers[h].ready && loser in w.handlers
    ensures Nearer(w, h, ToAck(Closed(w, loser), h))
  {
  }

  lemma OwnNearer(srv: Server, w: World, h: SessionId)
    requires Registered(w, h) && LoserKnown(w, h) && !w.handlers[h].ready
    requires w.handlers[h].pc != Running && w.handlers[h].pc != Done
    ensures var r := Next(srv, w, OwnAction(h, w.handlers[h].pc)); r.Some? && Nearer(w, h, r.value)
  {
    var x := w.handlers[h];
    if x.pc.Evicting? {
      EvictNearer(w, h, x.pc.loser);
    } else if !x.pc.Publishing? && x.pc != Acking {
      StepNearer(w, h);
    }
  }

  lemma OwnStep(srv: Server, w: World, h: SessionId)
    requires Inv(srv, w) && LosersKnown(w) && Registered(w, h) && !w.handlers[h].ready
    ensures var r := Next(srv, w, OwnAction(h, w.handlers[h].pc)); r.Some? && Nearer(w, h, r.value)
  {
    assert LoserKnown(w, h) && HandlerInv(srv, w.handlers[h]);
    OwnNearer(srv, w, h);
  }

  lemma RunOwnStep(srv: Server, acts: seq<Action>, h: SessionId)
    requires Run(srv, acts).Some?
    requires var w := Run(srv, acts).value; Registered(w, h) && !w.handlers[h].ready
    ensures var w := Run(srv, acts).value;
            var r := Run(srv, acts + [OwnAction(h, w.handlers[h].pc)]);
            r.Some? && Nearer(w, h, r.value)
  {
    Always(srv, acts);
    AllLosersKnown(srv, acts);
    OwnStep(srv, Run(srv, acts).value, h);
    var a := OwnAction(h, Run(srv, acts).value.handlers[h].pc);
    assert (acts + [a])[..|acts|] == acts;
  }

  predicate OwnActions(h: SessionId, more: seq<Action>) {
    forall k :: 0 <= k < |more| ==>
      more[k] == Publish(h) || more[k] == Evict(h) || more[k] == Ack(h, true) || more[k] == Step(h)
  }

  lemma OwnActionsFirst(h: SessionId, pc: Pc, rest: seq<Action>)
    requires OwnActions(h, rest)
    ensures OwnActions(h, [OwnAction(h, pc)] + rest)
  {
  }

  /** After `acts`, the steps `more` open the gate of `h` and leave the requests alone. */
  predicate Opens(srv: Server, acts: seq<Action>, h: SessionId, more: seq<Action>)
    requires Run(srv, acts).Some?
  {
    && OwnActions(h, more) && Run(srv, acts + more).Some?
    && var w' := Run(srv, acts + more).value;
       h in w'.handlers && w'.handlers[h].ready && w'.requests == Run(srv, acts).value.requests
  }

  lemma OpensThen(srv: Server, acts: seq<Action>, h: SessionId, a: Action, rest: seq<Action>)
    requires Run(srv, acts).Some? && Run(srv, acts + [a]).Some? && Opens(srv, acts + [a], h, rest)
    requires Run(srv, acts + [a]).value.requests == Run(srv, acts).value.requests && OwnActions(h, [a] + rest)
    ensures Opens(srv, acts, h, [a] + rest)
  {
    assert acts + ([a] + rest) == acts + [a] + rest;
  }

  /** Left to itself, a registered handler gets to close `ready`, on the failed-ack path too. */
  lemma {:induction false} ReadyReached(srv: Server, acts: seq<Action>, h: SessionId) returns (more: seq<Action>)
    requires Run(srv, acts).Some? && Registered(Run(srv, acts).value, h)
    ensures Opens(srv, acts, h, more)
    decreases Distance(Run(srv, acts).value.handlers[h])
  {
    var x := Run(srv, acts).value.handlers[h];
    if x.ready {
      more := [];
      assert acts + more == acts;
    } else {
      var a := OwnAction(h, x.pc);
      RunOwnStep(srv, acts, h);
      var rest := ReadyReached(srv, acts + [a], h);
      more := [a] + rest;
      OwnActionsFirst(h, x.pc, rest);
      OpensThen(srv, acts, h, a, rest);
    }
  }

  /** A request waits for a registered handler. */
  lemma WaitsForRegistered(srv: Server, acts: seq<Action>, r: nat)
    requires Run(srv, acts).Some? && r in Run(srv, acts).value.requests && Run(srv, acts).value.requests[r].Waiting?
    ensures var w := Run(srv, acts).value; Registered(w, w.requests[r].h)
  {
    Always(srv, acts);
    WaiterRegistered(srv, Run(srv, acts).value, r);
  }

  /** No request waits at the ready gate for ever: its tunnel's handler, left to itself, lets it pass. */
  lemma WaiterIsReleased(srv: Server, acts: seq<Action>, r: nat) returns (more: seq<Action>)
    requires Run(srv, acts).Some? && r in Run(srv, acts).value.requests && Run(srv, acts).value.requests[r].Waiting?
    ensures Run(srv, acts + more).Some? && Next(srv, Run(srv, acts + more).value, PassReady(r)).Some?
    ensures OwnActions(Run(srv, acts).value.requests[r].h, more)
  {
    WaitsForRegistered(srv, acts, r);
    more := ReadyReached(srv, acts, Run(srv, acts).value.requests[r].h);
  }

  // ---- Under any schedule ----

  /** `ws` lists the worlds the steps `acts` lead through. */
  ghost predicate IsRun(srv: Server, acts: seq<Action>, ws: seq<World>) {
    && |ws| == |acts| + 1 && ws[0] == START
    && forall k :: 0 <= k < |acts| ==> Next(srv, ws[k], acts[k]) == Some(ws[k + 1])
  }

  /** Every run has such a list. */
  lemma {:induction false} RunStates(srv: Server, acts: seq<Action>) returns (ws: seq<World>)
    requires Run(srv, acts).Some?
    ensures IsRun(srv, acts, ws) && ws[|acts|] == Run(srv, acts).value
  {
    if acts == [] {
      ws := [START];
    } else {
      var init := acts[..|acts| - 1];
      var before := RunStates(srv, init);
      ws := before + [Run(srv, acts).value];
      forall k | 0 <= k < |acts| ensures Next(srv, ws[k], acts[k]) == Some(ws[k + 1]) {
        assert k < |init| ==> acts[k] == init[k] && Next(srv, before[k], init[k]) == Some(before[k + 1]);
      }
    }
  }

  lemma {:induction false} InvAt(srv: Server, acts: seq<Action>, ws: seq<World>, n: nat)
    requires IsRun(srv, acts, ws) && n <= |acts|
    ensures Inv(srv, ws[n])
  {
    if n > 0 {
      var k := n - 1;
      assert Next(srv, ws[k], acts[k]) == Some(ws[k + 1]);
      InvAt(srv, acts, ws, k);
      NextKeeps(srv, ws[k], acts[k]);
    }
  }

  /** A step of connection `h` itself, its ack going out or not. */
  predicate IsOwn(h: SessionId, a: Action) {
    (a.Publish? || a.Evict? || a.Ack? || a.Step?) && a.h == h
  }

  /** Own steps of `h` between moments `m` and `n`. */
  function OwnSteps(h: SessionId, acts: seq<Action>, m: nat, n: nat): nat
    requires m <= n <= |acts|
  {
    if m == n then 0 else OwnSteps(h, acts, m, n - 1) + if IsOwn(h, acts[n - 1]) then 1 else 0
  }

  /** From `x` to `x'`, with `k` own steps in between: the gate is open or that much nearer. */
  predicate NearerBy(x: Handler, x': Handler, k: nat) {
    (x.ready ==> x'.ready) && (x'.ready || Distance(x') + k <= Distance(x))
  }

  lemma NearerThen(x: Handler, x1: Handler, x2: Handler, k: nat, j: nat)
    requires NearerBy(x, x1, k) && NearerBy(x1, x2, j)
    ensures NearerBy(x, x2, k + j)
  {
  }

  lemma OwnProgress(srv: Server, w: World, a: Action)
    requires (a.Publish? || a.Evict? || a.Ack? || a.Step?) && HandlerNext(srv, w, a).Some?
    requires Registered(w, a.h) && (w.handlers[a.h].pc == Running || w.handlers[a.h].pc == Done ==> w.handlers[a.h].ready)
    ensures var w' := HandlerNext(srv, w, a).value;
            Registered(w', a.h) && NearerBy(w.handlers[a.h], w'.handlers[a.h], 1)
  {
  }

  /** Whatever another connection or a request does, the program counter and the gate of `h` stay. */
  lemma OthersKeep(srv: Server, w: World, a: Action, h: SessionId)
    requires Next(srv, w, a).Some? && Registered(w, h) && !IsOwn(h, a)
    ensures var w' := Next(srv, w, a).value;
            h in w'.handlers && w'.handlers[h].pc == w.handlers[h].pc && w'.handlers[h].ready == w.handlers[h].ready
  {
    if a.Claim? {
      var name := ClaimShape(srv, w, a.h, a.random);
    }
  }

  lemma Progress(srv: Server, w: World, a: Action, w': World, h: SessionId)
    requires Inv(srv, w) && Next(srv, w, a) == Some(w') && Registered(w, h)
    ensures Registered(w', h) && NearerBy(w.handlers[h], w'.handlers[h], if IsOwn(h, a) then 1 else 0)
  {
    HandlerSound(srv, w, h);
    if IsOwn(h, a) {
      OwnProgress(srv, w, a);
    } else {
      OthersKeep(srv, w, a, h);
    }
  }

  /** In every run, whatever else is scheduled, each own step of a registered handler brings it nearer to its gate. */
  lemma {:induction false} OwnStepsCount(srv: Server, acts: seq<Action>, ws: seq<World>, m: nat, n: nat, h: SessionId)
    requires IsRun(srv, acts, ws) && m <= n <= |acts| && Registered(ws[m], h)
    ensures Registered(ws[n], h) && NearerBy(ws[m].handlers[h], ws[n].handlers[h], OwnSteps(h, acts, m, n))
  {
    if m < n {
      OwnStepsCount(srv, acts, ws, m, n - 1, h);
      InvAt(srv, acts, ws, n - 1);
      Progress(srv, ws[n - 1], acts[n - 1], ws[n], h);
      NearerThen(ws[m].handlers[h], ws[n - 1].handlers[h], ws[n].handlers[h],
                 OwnSteps(h, acts, m, n - 1), if IsOwn(h, acts[n - 1]) then 1 else 0);
    }
  }

  lemma StillClosedIsFar(x: Handler)
    ensures Distance(x) <= 6 && (!x.ready ==> Distance(x) > 0)
  {
  }

  lemma {:induction false} LosersAt(srv: Server, acts: seq<Action>, ws: seq<World>, n: nat)
    requires IsRun(srv, acts, ws) && n <= |acts|
    ensures LosersKnown(ws[n])
  {
    if n > 0 {
      var k := n - 1;
      assert Next(srv, ws[k], acts[k]) == Some(ws[k + 1]);
      LosersAt(srv, acts, ws, k);
      InvAt(srv, acts, ws, k);
      NextLosers(srv, ws[k], acts[k]);
    }
  }

  /** A handler whose gate is not open can take a step towards it. */
  predicate CanStep(srv: Server, w: World, h: SessionId)
    requires h in w.handlers
  {
    Next(srv, w, OwnAction(h, w.handlers[h].pc)).Some?
  }

  lemma CanStepAt(srv: Server, acts: seq<Action>, ws: seq<World>, n: nat, h: SessionId)
    requires IsRun(srv, acts, ws) && n <= |acts| && Registered(ws[n], h) && !ws[n].handlers[h].ready
    ensures CanStep(srv, ws[n], h)
  {
    InvAt(srv, acts, ws, n);
    LosersAt(srv, acts, ws, n);
    OwnStep(srv, ws[n], h);
  }

  /**
    In every run, whatever else is scheduled: the gate of a registered handler is
    open, or the handler has taken fewer than Distance steps of its own, six at
    most and five without a takeover, and has one to take now. The ack may go out
    or fail.
   */
  lemma GateIsBounded(srv: Server, acts: seq<Action>, ws: seq<World>, m: nat, n: nat, h: SessionId)
    requires IsRun(srv, acts, ws) && m <= n <= |acts| && Registered(ws[m], h)
    ensures h in ws[n].handlers && Distance(ws[m].handlers[h]) <= 6
    ensures || ws[n].handlers[h].ready
            || (OwnSteps(h, acts, m, n) < Distance(ws[m].handlers[h]) && CanStep(srv, ws[n], h))
  {
    OwnStepsCount(srv, acts, ws, m, n, h);
    StillClosedIsFar(ws[m].handlers[h]);
    StillClosedIsFar(ws[n].handlers[h]);
    if !ws[n].handlers[h].ready {
      CanStepAt(srv, acts, ws, n, h);
    }
  }

  /** A request that still waits waits for the same tunnel. */
  predicate SameWait(q: Request, q': Request) {
    q'.Waiting? ==> q' == q
  }

  lemma NextSameWait(srv: Server, w: World, a: Action, w': World, r: nat)
    requires Next(srv, w, a) == Some(w') && r in w.requests
    ensures r in w'.requests && SameWait(w.requests[r], w'.requests[r])
  {
    if a.Claim? {
      var name := ClaimShape(srv, w, a.h, a.random);
    }
  }

  lemma {:induction false} RunSameWait(srv: Server, acts: seq<Action>, ws: seq<World>, m: nat, n: nat, r: nat)
    requires IsRun(srv, acts, ws) && m <= n <= |acts| && r in ws[m].requests
    ensures r in ws[n].requests && SameWait(ws[m].requests[r], ws[n].requests[r])
  {
    if m < n {
      RunSameWait(srv, acts, ws, m, n - 1, r);
      NextSameWait(srv, ws[n - 1], acts[n - 1], ws[n], r);
    }
  }

  lemma WaiterRegistered(srv: Server, w: World, r: nat)
    requires Inv(srv, w) && r in w.requests && w.requests[r].Waiting?
    ensures Registered(w, w.requests[r].h)
  {
    assert RequestInv(srv, w, w.requests[r]);
  }

  /**
    So in every run, a request that still waits can pass at once, or its tunnel's
    handler has taken fewer than Distance steps since and has one to take now.
   */
  lemma WaitIsBounded(srv: Server, acts: seq<Action>, ws: seq<World>, m: nat, n: nat, r: nat)
    requires IsRun(srv, acts, ws) && m <= n <= |acts|
    requires r in ws[m].requests && ws[m].requests[r].Waiting?
    ensures var h := ws[m].requests[r].h;
            && r in ws[n].requests && h in ws[m].handlers && h in ws[n].handlers
            && (ws[n].requests[r].Waiting? ==>
                  || Next(srv, ws[n], PassReady(r)).Some?
                  || (OwnSteps(h, acts, m, n) < Distance(ws[m].handlers[h]) && CanStep(srv, ws[n], h)))
  {
    WaiterAt(srv, acts, ws, m, r);
    GateIsBounded(srv, acts, ws, m, n, ws[m].requests[r].h);
    RunSameWait(srv, acts, ws, m, n, r);
    if ws[n].requests[r].Waiting? && ws[n].handlers[ws[m].requests[r].h].ready {
      OpenGatePasses(srv, ws[n], r);
    }
  }

  lemma WaiterAt(srv: Server, acts: seq<Action>, ws: seq<World>, m: nat, r: nat)
    requires IsRun(srv, acts, ws) && m <= |acts| && r in ws[m].requests && ws[m].requests[r].Waiting?
    ensures Registered(ws[m], ws[m].requests[r].h)
  {
    InvAt(srv, acts, ws, m);
    WaiterRegistered(srv, ws[m], r);
  }

  lemma OpenGatePasses(srv: Server, w: World, r: nat)
    requires r in w.requests && w.requests[r].Waiting?
    requires var h := w.requests[r].h; h in w.handlers && w.handlers[h].ready
    ensures Next(srv, w, PassReady(r)).Some?
  {
  }

  // ---- The name that was asked for ----

  /** Whoever holds a name holds the one its token is bound to, or else the valid one it asked for. */
  lemma HeldNameIsRequested(srv: Server, acts: seq<Action>, n: string, scope: string)
    requires Auth.WellFormed(srv.auth) && Auth.LowerKeepsNames(srv.lower)
    requires Run(srv, acts).Some? && n in Run(srv, acts).value.table
    requires var w := Run(srv, acts).value; var h := w.table[n].session;
             h in w.handlers && Auth.Scope(srv.auth, w.handlers[h].adm.at, w.handlers[h].adm.hello.tok, scope)
    ensures var w := Run(srv, acts).value;
            var hello := w.handlers[w.table[n].session].adm.hello;
            && (scope != "" ==> n == scope)
            && (scope == "" && Auth.ValidSubdomain(hello.subdomain) ==> n == hello.subdomain)
  {
    HolderIsEntitled(srv, acts, n);
    var w := Run(srv, acts).value;
    var m := w.handlers[w.table[n].session].adm;
    HolderHasItsName(srv, acts, n);
    if scope != "" {
      Auth.ScopeIsKept(srv.auth, srv.lower, m.hello, m.overTLS, m.at, srv.fa.Some?, scope);
    } else if Auth.ValidSubdomain(m.hello.subdomain) {
      Auth.RequestedNameIsKept(srv.auth, srv.lower, m.hello, m.overTLS, m.at, srv.fa.Some?);
    }
  }

  lemma HolderHasItsName(srv: Server, acts: seq<Action>, n: string)
    requires Run(srv, acts).Some? && n in Run(srv, acts).value.table
    ensures var w := Run(srv, acts).value;
            w.table[n].session in w.handlers
            && var m := w.handlers[w.table[n].session].adm; m.sub != "" ==> n == m.sub
  {
    Always(srv, acts);
    var w := Run(srv, acts).value;
    assert TableInv(w, n);
    HandlerSound(srv, w, w.table[n].session);
  }

  // ---- What single steps do ----

  /** The name is free, or held by a stale session of the same token, which must have an id. */
  predicate Available(w: World, name: string, tokenId: string) {
    name in w.table ==>
      tokenId != "" && w.table[name].tokenId == tokenId && w.table[name].session in w.stale
  }

  /** The name a turn of the registration loop tries. */
  function Tried(w: World, h: SessionId, random: nat): string
    requires h in w.handlers
  {
    if w.handlers[h].adm.sub == "" then Auth.Digits36(random, 6) else w.handlers[h].adm.sub
  }

  /** The server makes up a name only for a connection without one, and none that is reserved. */
  predicate Usable(srv: Server, w: World, h: SessionId, random: nat)
    requires h in w.handlers
  {
    w.handlers[h].adm.sub == "" ==> Tried(w, h, random) !in srv.auth.reservedNames
  }

  /** A turn that finds its name available registers it, and remembers whose it was. */
  lemma ClaimGranted(srv: Server, w: World, h: SessionId, random: nat)
    requires h in w.handlers && w.handlers[h].pc.Claiming? && w.handlers[h].pc.tries > 0
    requires Usable(srv, w, h, random) && Available(w, Tried(w, h, random), w.handlers[h].adm.tokenId)
    ensures var name, w' := Tried(w, h, random), Next(srv, w, Claim(h, random));
            && w'.Some? && h in w'.value.handlers
            && w'.value.table == w.table[name := Entry(h, w.handlers[h].adm.tokenId)]
            && w'.value.handlers[h].name == name
            && w'.value.handlers[h].pc == Publishing(if name in w.table then Some(w.table[name].session) else None)
  {
    ClaimCases(w.table, Tried(w, h, random), w.handlers[h].adm.tokenId, w.stale);
  }

  /** One that does not leaves the registry alone: a made-up name is rolled again, up to a hundred times, any other refused. */
  lemma ClaimDenied(srv: Server, w: World, h: SessionId, random: nat)
    requires h in w.handlers && w.handlers[h].pc.Claiming?
    requires || w.handlers[h].pc.tries == 0
             || !Usable(srv, w, h, random) || !Available(w, Tried(w, h, random), w.handlers[h].adm.tokenId)
    ensures var x, w' := w.handlers[h], Next(srv, w, Claim(h, random));
            && w'.Some? && w'.value.table == w.table && h in w'.value.handlers
            && if x.pc.tries > 0 && x.adm.sub == "" then w'.value.handlers[h].pc == Claiming(x.pc.tries - 1)
               else w'.value.handlers[h].pc == Rejected && w'.value.handlers[h].wire == x.wire + [AckNo]
  {
    ClaimCases(w.table, Tried(w, h, random), w.handlers[h].adm.tokenId, w.stale);
  }

  lemma HundredTries(srv: Server, w: World, h: SessionId, hello: Auth.Hello, overTLS: bool, at: Auth.Clocked)
    requires Auth.Admit(srv.auth, srv.lower, hello, overTLS, at, srv.fa.Some?).Ok?
    ensures ConnectNext(srv, w, h, hello, overTLS, at).handlers[h].pc == Claiming(100)
  {
  }

  /** The ack goes out exactly if its write does, on a connection nobody has closed. */
  lemma AckOutcome(srv: Server, w: World, h: SessionId, ok: bool)
    requires h in w.handlers && w.handlers[h].pc == Acking
    ensures var x, w' := w.handlers[h], Next(srv, w, Ack(h, ok));
            && w'.Some? && w'.value.table == w.table && h in w'.value.handlers
            && w'.value.handlers[h]
               == if ok && !x.closed then x.(pc := Readying, wire := x.wire + [AckOk]) else x.(pc := AckFailed)
  {
  }

  /** A running session may send frames, a closed one none. */
  lemma BeatOutcome(srv: Server, w: World, h: SessionId)
    requires h in w.handlers && w.handlers[h].pc == Running
    ensures var x, w' := w.handlers[h], Next(srv, w, Beat(h));
            if x.closed then w' == None
            else w'.Some? && h in w'.value.handlers && w'.value.handlers[h] == x.(wire := x.wire + [MuxFrame])
  {
  }

  /** A request for a valid name waits for the session that holds it; any other is turned away. */
  lemma ArriveOutcome(srv: Server, w: World, r: nat, name: string, headers: FA.Headers, cookie: Option<string>)
    requires r !in w.requests
    ensures var w' := Next(srv, w, Arrive(r, name, headers, cookie));
            && w'.Some?
            && w'.value == w.(requests := w.requests[r := if name in w.table && Auth.ValidSubdomain(name)
                                                          then Waiting(w.table[name].session, headers, cookie) else Ended])
  {
  }

  /** Past an open ready gate, a request the gate clears reaches the tunnel as a stream, if the session lives. */
  lemma RequestReachesTunnel(srv: Server, w: World, r: nat, when: int)
    requires r in w.requests && w.requests[r].Waiting?
    requires var h := w.requests[r].h; h in w.handlers && w.handlers[h].ready
    ensures var q := w.requests[r];
            var x, out := w.handlers[q.h], FA.Gate(srv.fa, w.handlers[q.h].isProtected, q.headers, q.cookie, when);
            var w1 := Next(srv, w, PassReady(r));
            && w1.Some?
            && var w2 := Next(srv, w1.value, PassGate(r, when));
               && w2.Some?
               && if out.None? then w2.value.requests[r] == Ended
                  else
                    var w3 := Next(srv, w2.value, OpenStream(r));
                    && w3.Some?
                    && if x.closed then w3.value.requests[r] == Ended
                       else
                         && w3.value.requests[r] == Proxied(q.h, out.value, q.cookie, when)
                         && w3.value.handlers[q.h].wire == x.wire + [MuxFrame]
  {
  }

  // ---- The session that lost its name ----

  /** Somebody took the name of `h` and is about to close its session. */
  ghost predicate AboutToClose(w: World, h: SessionId) {
    exists g :: g in w.handlers && (w.handlers[g].pc == Publishing(Some(h)) || w.handlers[g].pc == Evicting(h))
  }

  ghost predicate EvictedClosed(w: World) {
    forall h :: h in w.handlers && w.handlers[h].evicted ==> w.handlers[h].closed || AboutToClose(w, h)
  }

  /** A step that touches one handler and evicts nobody. */
  lemma OneCloses(w: World, w': World, g: SessionId)
    requires EvictedClosed(w) && g in w'.handlers
    requires forall h :: h in w.handlers ==> h in w'.handlers
    requires forall h :: h in w'.handlers && h != g ==> h in w.handlers && w'.handlers[h] == w.handlers[h]
    requires if g in w.handlers then
               var x, x' := w.handlers[g], w'.handlers[g];
               && x'.evicted == x.evicted && (x.closed ==> x'.closed)
               && (x.pc.Publishing? && x.pc.evicted.Some? ==> x'.pc == x.pc || x'.pc == Evicting(x.pc.evicted.value))
               && (x.pc.Evicting? ==> x'.pc == x.pc)
             else !w'.handlers[g].evicted
    ensures EvictedClosed(w')
  {
    forall h | h in w'.handlers && w'.handlers[h].evicted && !w'.handlers[h].closed
      ensures AboutToClose(w', h)
    {
      assert AboutToClose(w, h);
      var k :| k in w.handlers && (w.handlers[k].pc == Publishing(Some(h)) || w.handlers[k].pc == Evicting(h));
      assert k in w'.handlers && (w'.handlers[k].pc == Publishing(Some(h)) || w'.handlers[k].pc == Evicting(h));
    }
  }

  lemma GrantCloses(w: World, h: SessionId, name: string)
    requires EvictedClosed(w) && h in w.handlers && w.handlers[h].pc.Claiming?
    ensures EvictedClosed(Grant(w, h, name))
  {
    var w', loser := Grant(w, h, name), Evicted(w.table, name);
    forall g | g in w'.handlers && w'.handlers[g].evicted && !w'.handlers[g].closed
      ensures AboutToClose(w', g)
    {
      if loser == Some(g) {
        assert w'.handlers[h].pc == Publishing(Some(g));
      } else {
        assert g in w.handlers && w.handlers[g].evicted && AboutToClose(w, g);
        var k :| k in w.handlers && (w.handlers[k].pc == Publishing(Some(g)) || w.handlers[k].pc == Evicting(g));
        assert k != h && k in w'.handlers && w'.handlers[k].pc == w.handlers[k].pc;
      }
    }
  }

  lemma ClaimCloses(srv: Server, w: World, h: SessionId, random: nat)
    requires EvictedClosed(w) && h in w.handlers && w.handlers[h].pc.Claiming?
    ensures EvictedClosed(ClaimNext(srv, w, h, random))
  {
    var name := ClaimShape(srv, w, h, random);
    GrantCloses(w, h, name);
    OneCloses(w, SetHandler(w, h, Reject(w.handlers[h])), h);
    if w.handlers[h].pc.tries > 0 {
      var x := w.handlers[h].(pc := Claiming(w.handlers[h].pc.tries - 1));
      OneCloses(w, SetHandler(w, h, x), h);
    }
  }

  lemma EvictCloses(w: World, h: SessionId, loser: SessionId)
    requires EvictedClosed(w) && h in w.handlers && w.handlers[h].pc == Evicting(loser) && loser in w.handlers
    ensures EvictedClosed(ToAck(Closed(w, loser), h))
  {
    var w' := ToAck(Closed(w, loser), h);
    forall g | g in w'.handlers && w'.handlers[g].evicted && !w'.handlers[g].closed
      ensures AboutToClose(w', g)
    {
      assert g != loser && AboutToClose(w, g);
      var k :| k in w.handlers && (w.handlers[k].pc == Publishing(Some(g)) || w.handlers[k].pc == Evicting(g));
      assert k != h && k in w'.handlers && w'.handlers[k].pc == w.handlers[k].pc;
    }
  }

  lemma HandlerCloses(srv: Server, w: World, a: Action)
    requires EvictedClosed(w) && (a.Claim? || a.Publish? || a.Evict? || a.Ack? || a.Step? || a.Beat?)
    requires HandlerNext(srv, w, a).Some?
    ensures EvictedClosed(HandlerNext(srv, w, a).value)
  {
    if a.Claim? {
      ClaimCloses(srv, w, a.h, a.random);
    } else if a.Evict? {
      EvictCloses(w, a.h, w.handlers[a.h].pc.loser);
    } else {
      OneCloses(w, HandlerNext(srv, w, a).value, a.h);
    }
  }

  lemma RequestCloses(srv: Server, w: World, a: Action)
    requires EvictedClosed(w) && (a.PassReady? || a.PassGate? || a.OpenStream? || a.GiveUp?)
    requires RequestNext(srv, w, a).Some?
    ensures EvictedClosed(RequestNext(srv, w, a).value)
  {
    var w' := RequestNext(srv, w, a).value;
    if a.OpenStream? && w'.handlers != w.handlers {
      OneCloses(w, w', w.requests[a.r].h);
    } else {
      SameHandlersClose(w, w');
    }
  }

  lemma SameHandlersClose(w: World, w': World)
    requires EvictedClosed(w) && w'.handlers == w.handlers
    ensures EvictedClosed(w')
  {
    forall h | h in w'.handlers && w'.handlers[h].evicted && !w'.handlers[h].closed ensures AboutToClose(w', h) {
      assert AboutToClose(w, h);
    }
  }

  lemma NextCloses(srv: Server, w: World, a: Action)
    requires EvictedClosed(w) && Next(srv, w, a).Some?
    ensures EvictedClosed(Next(srv, w, a).value)
  {
    if a.Connect? {
      NewHandler(srv, w, a.h, a.hello, a.overTLS, a.at);
      NewIsNotEvicted(srv, w, a.h, a.hello, a.overTLS, a.at);
      OneCloses(w, Next(srv, w, a).value, a.h);
    } else if a.SetStale? || a.Arrive? {
      SameHandlersClose(w, Next(srv, w, a).value);
    } else if a.PassReady? || a.PassGate? || a.OpenStream? || a.GiveUp? {
      RequestCloses(srv, w, a);
    } else {
      HandlerCloses(srv, w, a);
    }
  }

  lemma NewIsNotEvicted(srv: Server, w: World, h: SessionId, hello: Auth.Hello, overTLS: bool, at: Auth.Clocked)
    ensures !ConnectNext(srv, w, h, hello, overTLS, at).handlers[h].evicted
  {
  }

  /**
    In every run, a connection that lost its name has its session closed, or the
    connection that took the name is still on its way to closing it, which it does
    before its own ack.
   */
  lemma {:induction false} EvictedIsClosed(srv: Server, acts: seq<Action>, ws: seq<World>, n: nat)
    requires IsRun(srv, acts, ws) && n <= |acts|
    ensures EvictedClosed(ws[n])
  {
    if n > 0 {
      var k := n - 1;
      assert Next(srv, ws[k], acts[k]) == Some(ws[k + 1]);
      EvictedIsClosed(srv, acts, ws, k);
      NextCloses(srv, ws[k], acts[k]);
    }
  }
}

/** Session cookies and the identity headers of protected tunnels (forwardauth.go). */
module ForwardAuth {
  import opened Basics
  import Sealed
  import Token

  const PREFIX := "s1."
  const USER_HEADER := "X-Authenticated-User"
  const GROUP_HEADER := "X-Authenticated-Groups"

  datatype Session = Session(user: string, groups: seq<string>, exp: int)

  datatype SessionErr = InvalidSession | ExpiredSession

  datatype Env = Env(
    key: seq<byte>,
    mac: (seq<byte>, seq<byte>) -> seq<byte>,
    marshal: Session -> seq<byte>,
    unmarshal: seq<byte> -> Option<Session>
  )

  ghost predicate JsonOk(env: Env, s: Session) {
    env.unmarshal(env.marshal(s)) == Some(s)
  }

  function SignSession(env: Env, user: string, groups: seq<string>, ttl: int, now: int): string {
    var payload := env.marshal(Session(user, groups, Token.Unix(now + ttl)));
    Sealed.Seal(PREFIX, payload, env.mac(env.key, payload))
  }

  function VerifySession(env: Env, cookie: string, now: int): Result<Session, SessionErr> {
    var o := Sealed.Open(PREFIX, cookie);
    if o.None? || o.value.sig != env.mac(env.key, o.value.payload) then Err(InvalidSession)
    else
      var s := env.unmarshal(o.value.payload);
      if s.None? then Err(InvalidSession)
      else if Token.Unix(now) > s.value.exp then Err(ExpiredSession)
      else Ok(s.value)
  }

  /** A signed session verifies to itself until it expires, and never after. */
  lemma SignVerify(env: Env, user: string, groups: seq<string>, ttl: int, now: int, later: int)
    requires JsonOk(env, Session(user, groups, Token.Unix(now + ttl)))
    ensures var s := Session(user, groups, Token.Unix(now + ttl));
            VerifySession(env, SignSession(env, user, groups, ttl, now), later)
            == if Token.Unix(later) > s.exp then Err(ExpiredSession) else Ok(s)
  {
    var payload := env.marshal(Session(user, groups, Token.Unix(now + ttl)));
    Sealed.OpenSeal(PREFIX, payload, env.mac(env.key, payload));
  }

  /** Tokens and cookies never pass for one another, even under one key. */
  lemma KindsAreDisjoint(env: Env, s: string, now: int)
    requires Token.PREFIX <= s
    ensures VerifySession(env, s, now) == Err(InvalidSession)
    ensures !(PREFIX <= s)
  {
    assert s[0] == 'm';
  }

  /** A cookie is the letters s1, a dot, and a session and its mac in base64url with a dot between. */
  lemma SignedText(env: Env, user: string, groups: seq<string>, ttl: int, now: int)
    ensures var payload := env.marshal(Session(user, groups, (now + ttl) / 1_000_000_000));
            SignSession(env, user, groups, ttl, now)
            == "s1." + Sealed.Encode(payload) + "." + Sealed.Encode(env.mac(env.key, payload))
  {
  }

  /** An accepted cookie carries the key's own mac over the session it was accepted for, and that has not expired. */
  lemma VerifiedIsSigned(env: Env, cookie: string, now: int)
    requires VerifySession(env, cookie, now).Ok?
    ensures exists payload, sig ::
              && Sealed.Open("s1.", cookie) == Some(Sealed.Opened(payload, sig))
              && sig == env.mac(env.key, payload)
              && env.unmarshal(payload) == Some(VerifySession(env, cookie, now).value)
    ensures now / 1_000_000_000 <= VerifySession(env, cookie, now).value.exp
  {
    var o := Sealed.Open(PREFIX, cookie).value;
    assert Sealed.Open("s1.", cookie) == Some(Sealed.Opened(o.payload, o.sig));
  }

  /** Request headers by canonical name. */
  type Headers = map<string, seq<string>>

  function Join(parts: seq<string>): string {
    if parts == [] then "" else if |parts| == 1 then parts[0] else parts[0] + "," + Join(parts[1..])
  }

  /** One part is itself; parts are joined by commas, wherever they are split. */
  lemma {:induction false} JoinParts(a: seq<string>, b: seq<string>, x: string)
    ensures Join([x]) == x
    ensures a != [] && b != [] ==> Join(a + b) == Join(a) + "," + Join(b)
  {
    if a != [] && b != [] {
      if |a| == 1 {
        assert a + b == [a[0]] + b && (a + b)[1..] == b;
      } else {
        assert (a + b)[1..] == a[1..] + b;
        JoinParts(a[1..], b, x);
      }
    }
  }

  function StripIdentityHeaders(h: Headers): Headers {
    h - {USER_HEADER, GROUP_HEADER}
  }

  /** What Authorize makes of the headers; None is the redirect to the login page. */
  function AuthorizedHeaders(env: Env, h: Headers, cookie: Option<string>, now: int): Option<Headers> {
    if cookie.None? then None
    else
      var r := VerifySession(env, cookie.value, now);
      if r.Err? then None
      else
        var h1 := h[USER_HEADER := [r.value.user]];
        Some(if r.value.groups == [] then h1 else h1[GROUP_HEADER := [Join(r.value.groups)]])
  }

  /** The identity a set of headers asserts to the local service. */
  function Identity(h: Headers): (Option<seq<string>>, Option<seq<string>>) {
    (if USER_HEADER in h then Some(h[USER_HEADER]) else None,
     if GROUP_HEADER in h then Some(h[GROUP_HEADER]) else None)
  }

  /** The identity a verified session stands for. */
  function IdentityOf(s: Session): (Option<seq<string>>, Option<seq<string>>) {
    (Some([s.user]), if s.groups == [] then None else Some([Join(s.groups)]))
  }

  const NOBODY: (Option<seq<string>>, Option<seq<string>>) := (None, None)

  /** ServeHTTP's last gate: strip, then authorize a protected tunnel. None is the redirect. */
  function Gate(env: Option<Env>, isProtected: bool, h: Headers, cookie: Option<string>, now: int): Option<Headers> {
    var clean := StripIdentityHeaders(h);
    if isProtected && env.Some? then AuthorizedHeaders(env.value, clean, cookie, now) else Some(clean)
  }

  /**
    Whatever identity headers a viewer sends: through the gate of a protected
    tunnel passes exactly the verified session's identity, through an unprotected
    one none at all, and every other header passes unchanged.
   */
  lemma GateIdentity(env: Option<Env>, isProtected: bool, h: Headers, cookie: Option<string>, now: int)
    ensures var r := Gate(env, isProtected, h, cookie, now);
            && (isProtected && env.Some? ==>
                  (r.Some? <==> cookie.Some? && VerifySession(env.value, cookie.value, now).Ok?))
            && (r.Some? ==>
                  && Identity(r.value) == (if isProtected && env.Some?
                                           then IdentityOf(VerifySession(env.value, cookie.value, now).value)
                                           else NOBODY)
                  && StripIdentityHeaders(r.value) == StripIdentityHeaders(h))
  {
  }

  /** Any header but the two that assert an identity. */
  predicate Other(name: string) {
    name != "X-Authenticated-User" && name != "X-Authenticated-Groups"
  }

  /** Header by header: every other one is as it was. */
  ghost predicate OthersSame(h: Headers, h': Headers) {
    forall name :: Other(name) ==> (name in h' <==> name in h) && (name in h ==> h'[name] == h[name])
  }

  lemma StripsTwo(h: Headers)
    ensures var r := StripIdentityHeaders(h);
            OthersSame(h, r) && "X-Authenticated-User" !in r && "X-Authenticated-Groups" !in r
  {
  }

  /** What leaves the gate, header by header. */
  lemma GateHeaders(env: Option<Env>, isProtected: bool, h: Headers, cookie: Option<string>, now: int)
    requires Gate(env, isProtected, h, cookie, now).Some?
    ensures var r := Gate(env, isProtected, h, cookie, now).value;
            && OthersSame(h, r)
            && if isProtected && env.Some? then
                 && cookie.Some? && VerifySession(env.value, cookie.value, now).Ok?
                 && var v := VerifySession(env.value, cookie.value, now).value;
                    && "X-Authenticated-User" in r && r["X-Authenticated-User"] == [v.user]
                    && ("X-Authenticated-Groups" in r <==> v.groups != [])
                    && (v.groups != [] ==> r["X-Authenticated-Groups"] == [Join(v.groups)])
               else "X-Authenticated-User" !in r && "X-Authenticated-Groups" !in r
  {
    StripsTwo(h);
  }

  /** A public request on its way through the proxy; its headers are edited in place. */
  class Request {
    var headers: Headers
    const cookie: Option<string>

    constructor (headers: Headers, cookie: Option<string>)
      ensures this.headers == headers && this.cookie == cookie
    {
      this.headers := headers;
      this.cookie := cookie;
    }

    method StripIdentity()
      modifies this
      ensures headers == StripIdentityHeaders(old(headers))
      ensures OthersSame(old(headers), headers)
      ensures "X-Authenticated-User" !in headers && "X-Authenticated-Groups" !in headers
    {
      headers := headers - {USER_HEADER};
      headers := headers - {GROUP_HEADER};
    }

    /** False means the viewer was redirected to the login page; the headers are then untouched. */
    method Authorize(env: Env, now: int) returns (ok: bool)
      modifies this
      ensures var r := AuthorizedHeaders(env, old(headers), cookie, now);
              ok == r.Some? && headers == if ok then r.value else old(headers)
    {
      ok := false;
      if cookie.Some? {
        var r := VerifySession(env, cookie.value, now);
        if r.Ok? {
          headers := headers[USER_HEADER := [r.value.user]];
          if r.value.groups != [] {
            headers := headers[GROUP_HEADER := [Join(r.value.groups)]];
          }
          ok := true;
        }
      }
    }

    /** The part of ServeHTTP between the ready gate and the tunnel. */
    method Admit(env: Option<Env>, isProtected: bool, now: int) returns (ok: bool)
      modifies this
      ensures var r := Gate(env, isProtected, old(headers), cookie, now);
              ok == r.Some? && (ok ==> headers == r.value)
      ensures OthersSame(old(headers), headers)
      ensures !isProtected || env.None? ==>
                ok && "X-Authenticated-User" !in headers && "X-Authenticated-Groups" !in headers
    {
      StripIdentity();
      ok := true;
      if isProtected && env.Some? {
        ok := Authorize(env.value, now);
      }
    }
  }
}

/** Who may connect, and under which name (auth.go, and the names of message.go). */
module Auth {
  import opened Basics
  import Text
  import Token

  predicate LabelChar(c: char) {
    'a' <= c <= 'z' || '0' <= c <= '9'
  }

  /** ^[a-z0-9]([a-z0-9-]{0,62})$ */
  predicate ValidSubdomain(s: string) {
    1 <= |s| <= 63 && LabelChar(s[0]) && forall k :: 0 < k < |s| ==> LabelChar(s[k]) || s[k] == '-'
  }

  function NormalizeSubdomain(lower: char -> char, s: string): string {
    Text.MapChars(lower, Text.Trim(s))
  }

  /** How a server is asked to authenticate at one instant. */
  datatype Clocked = Clocked(env: Token.Env, now: int)

  datatype AuthErr =
    | NoToken | InvalidToken | Revoked | BadToken(err: Token.ParseErr)
    | WrongScope(scope: string) | InvalidName(name: string) | Reserved(name: string) | TlsRequired(name: string)

  datatype Authenticator = Authenticator(
    tokens: set<string>,
    reserved: map<string, string>,                // static token to its name
    reservedNames: map<string, set<string>>,      // reserved name to the token ids that may hold it
    signing: seq<byte>,
    revoked: set<string>,
    open: bool
  ) {
    predicate IsSigned(tok: string) {
      signing != [] && Token.PREFIX <= tok
    }

    function Parse(c: Clocked, tok: string): Result<Token.Claims, Token.ParseErr> {
      Token.Parse(c.env, signing, tok, c.now)
    }

    function Check(c: Clocked, tok: string): Option<AuthErr> {
      if open then None
      else if tok == "" then Some(NoToken)
      else if IsSigned(tok) then
        match Parse(c, tok)
        case Err(e) => Some(BadToken(e))
        case Ok(claims) => if claims.id in revoked then Some(Revoked) else None
      else if tok !in tokens then Some(InvalidToken)
      else None
    }

    /** The one name a token is good for, or "". */
    function ReservedSubdomain(c: Clocked, tok: string): string {
      if IsSigned(tok) then
        var r := Parse(c, tok);
        if r.Ok? then r.value.sub else ""
      else if tok in reserved then reserved[tok] else ""
    }

    function ProtectedByToken(c: Clocked, tok: string): bool {
      IsSigned(tok) && Parse(c, tok).Ok? && Parse(c, tok).value.prot
    }

    function TokenId(c: Clocked, tok: string): string {
      if !IsSigned(tok) then ""
      else
        var r := Parse(c, tok);
        if r.Err? || r.value.id in revoked then "" else r.value.id
    }

    predicate IsReserved(name: string) {
      name in reservedNames
    }

    function CheckReserved(c: Clocked, tok: string, name: string, overTLS: bool): Option<AuthErr> {
      if name !in reservedNames then None
      else
        var id := TokenId(c, tok);
        if id == "" || id !in reservedNames[name] then Some(Reserved(name))
        else if !overTLS then Some(TlsRequired(name))
        else None
    }

    function CheckName(requested: string): Option<AuthErr> {
      if requested != "" && !ValidSubdomain(requested) then Some(InvalidName(requested)) else None
    }

    function CheckSubdomain(c: Clocked, tok: string, requested: string): Option<AuthErr> {
      if IsSigned(tok) then
        match Parse(c, tok)
        case Err(e) => Some(BadToken(e))
        case Ok(claims) =>
          if claims.sub != "" then
            if requested != claims.sub then Some(WrongScope(claims.sub)) else None
          else CheckName(requested)
      else if tok in reserved then
        if requested != "" && requested != reserved[tok] then Some(WrongScope(reserved[tok])) else None
      else CheckName(requested)
    }
  }

  /** What NewAuthenticatorWith guarantees about the authenticators it builds. */
  ghost predicate WellFormed(a: Authenticator) {
    && (a.open <==> a.tokens == {} && a.signing == [])
    && a.reserved.Keys <= a.tokens
    && (forall t :: t in a.reserved ==> ValidSubdomain(a.reserved[t]) && a.reserved[t] !in a.reservedNames)
    && (a.reservedNames != map[] ==> a.signing != [])
    && (forall n :: n in a.reservedNames ==> ValidSubdomain(n) && a.reservedNames[n] != {})
  }

  datatype Hello = Hello(tok: string, subdomain: string, isProtected: bool)

  /** What a handshake that passes every check may register; `sub` is "" for a generated name. */
  datatype Admission = Admission(hello: Hello, overTLS: bool, at: Clocked, sub: string, isProtected: bool, tokenId: string)

  datatype RejectErr = Refused(err: AuthErr) | NoProvider

  /** handleControlConn from the token check to the protection check, at one instant. */
  function Admit(a: Authenticator, lower: char -> char, hello: Hello, overTLS: bool, at: Clocked, faEnabled: bool)
    : Result<Admission, RejectErr>
  {
    var e := a.Check(at, hello.tok);
    if e.Some? then Err(Refused(e.value))
    else
      var scope := a.ReservedSubdomain(at, hello.tok);
      var sub := if scope != "" then scope else NormalizeSubdomain(lower, hello.subdomain);
      var e1 := a.CheckSubdomain(at, hello.tok, sub);
      if e1.Some? then Err(Refused(e1.value))
      else
        var e2 := a.CheckReserved(at, hello.tok, sub, overTLS);
        if e2.Some? then Err(Refused(e2.value))
        else
          var isProtected := hello.isProtected || a.ProtectedByToken(at, hello.tok);
          if isProtected && !faEnabled then Err(NoProvider)
          else Ok(Admission(hello, overTLS, at, sub, isProtected, a.TokenId(at, hello.tok)))
  }

  /** The name rules, said without the checks that enforce them. */
  ghost predicate Entitled(a: Authenticator, m: Admission, name: string) {
    var tok, at := m.hello.tok, m.at;
    // A reserved name: an unrevoked signed token with a listed id, over TLS.
    && (name in a.reservedNames ==>
          && a.signing != [] && m.overTLS
          && a.Parse(at, tok).Ok?
          && a.Parse(at, tok).value.id in a.reservedNames[name]
          && a.Parse(at, tok).value.id !in a.revoked)
    // A scoped token: its scope and nothing else.
    && (a.IsSigned(tok) ==> a.Parse(at, tok).Ok? && a.Parse(at, tok).value.sub in {"", name})
    && (!a.IsSigned(tok) && tok in a.reserved ==> a.reserved[tok] in {"", name})
    // A server that is not open: a known token, unrevoked if signed.
    && (a.open || (if a.IsSigned(tok) then a.Parse(at, tok).Ok? && a.Parse(at, tok).value.id !in a.revoked
                   else tok in a.tokens))
    && m.tokenId == a.TokenId(at, tok)
  }

  /** An admitted connection is entitled to the name it asked for. */
  lemma AdmittedIsEntitled(a: Authenticator, lower: char -> char, hello: Hello, overTLS: bool, at: Clocked, fa: bool)
    requires WellFormed(a)
    ensures var r := Admit(a, lower, hello, overTLS, at, fa);
            r.Ok? && r.value.sub != "" ==> Entitled(a, r.value, r.value.sub)
    ensures var r := Admit(a, lower, hello, overTLS, at, fa);
            r.Ok? && r.value.isProtected ==> fa
  {
  }

  /** A connection that asked for nothing is entitled to any unreserved name the server makes up. */
  lemma GeneratedIsEntitled(a: Authenticator, lower: char -> char, hello: Hello, overTLS: bool, at: Clocked, fa: bool,
                            name: string)
    requires WellFormed(a) && name !in a.reservedNames
    ensures var r := Admit(a, lower, hello, overTLS, at, fa);
            r.Ok? && r.value.sub == "" ==> Entitled(a, r.value, name)
  {
  }

  /**
    Exactly when an admitted name is a valid subdomain: a signed token's scope is
    taken as minted, every other name has been checked.
   */
  lemma NameIsValid(a: Authenticator, lower: char -> char, hello: Hello, overTLS: bool, at: Clocked, fa: bool)
    requires WellFormed(a)
    ensures var r := Admit(a, lower, hello, overTLS, at, fa);
            r.Ok? && r.value.sub != "" ==>
              (ValidSubdomain(r.value.sub) <==>
               !(a.IsSigned(hello.tok) && a.Parse(at, hello.tok).value.sub != ""
                 && !ValidSubdomain(a.Parse(at, hello.tok).value.sub)))
  {
  }

  /** What the code relies on about unicode.ToLower for names. */
  ghost predicate LowerKeepsNames(lower: char -> char) {
    forall c :: LabelChar(c) || c == '-' ==> lower(c) == c
  }

  /** The name a token is bound to: a signed token's scope, a static token's entry, or none. */
  ghost predicate Scope(a: Authenticator, at: Clocked, tok: string, scope: string) {
    if a.signing != [] && Token.PREFIX <= tok then
      var r := Token.Parse(at.env, a.signing, tok, at.now); scope == if r.Ok? then r.value.sub else ""
    else scope == if tok in a.reserved then a.reserved[tok] else ""
  }

  /** Whoever asks for a valid name with a token bound to none is admitted under that name, and no other. */
  lemma RequestedNameIsKept(a: Authenticator, lower: char -> char, hello: Hello, overTLS: bool, at: Clocked, fa: bool)
    requires Scope(a, at, hello.tok, "") && LowerKeepsNames(lower) && ValidSubdomain(hello.subdomain)
    ensures var r := Admit(a, lower, hello, overTLS, at, fa); r.Ok? ==> r.value.sub == hello.subdomain
  {
    ValidNameIsNormal(lower, hello.subdomain);
  }

  lemma ValidNameIsNormal(lower: char -> char, s: string)
    requires LowerKeepsNames(lower) && ValidSubdomain(s)
    ensures NormalizeSubdomain(lower, s) == s
  {
    NameIsTight(s);
    Text.TrimPad("", s, "");
    assert "" + s + "" == s;
    assert Text.MapChars(lower, s) == s;
  }

  lemma NameIsTight(s: string)
    requires ValidSubdomain(s)
    ensures Text.Tight(s)
  {
    assert !Text.IsSpace(s[0]) && !Text.IsSpace(s[|s| - 1]);
  }

  /** In general the request is trimmed and lowered. */
  lemma RequestIsNormalized(a: Authenticator, lower: char -> char, hello: Hello, overTLS: bool, at: Clocked, fa: bool,
                            pre: string, name: string, post: string)
    requires Scope(a, at, hello.tok, "") && hello.subdomain == pre + name + post
    requires Text.Blank(pre) && Text.Tight(name) && Text.Blank(post)
    ensures var r := Admit(a, lower, hello, overTLS, at, fa);
            r.Ok? ==> |r.value.sub| == |name| && forall k :: 0 <= k < |name| ==> r.value.sub[k] == lower(name[k])
  {
    Text.TrimPad(pre, name, post);
  }

  /** A blank request with a token bound to no name leaves the name to the server. */
  lemma BlankIsGenerated(a: Authenticator, lower: char -> char, hello: Hello, overTLS: bool, at: Clocked, fa: bool)
    requires Scope(a, at, hello.tok, "") && Text.Blank(hello.subdomain)
    ensures var r := Admit(a, lower, hello, overTLS, at, fa); r.Ok? ==> r.value.sub == ""
  {
    assert hello.subdomain + "" + "" == hello.subdomain;
    RequestIsNormalized(a, lower, hello, overTLS, at, fa, hello.subdomain, "", "");
  }

  /** A token bound to a name gets that name, whatever was asked for. */
  lemma ScopeIsKept(a: Authenticator, lower: char -> char, hello: Hello, overTLS: bool, at: Clocked, fa: bool, scope: string)
    requires Scope(a, at, hello.tok, scope) && scope != ""
    ensures var r := Admit(a, lower, hello, overTLS, at, fa); r.Ok? ==> r.value.sub == scope
  {
  }

  /** The conditions of admission under the name `sub`, one by one. */
  ghost predicate Acceptable(a: Authenticator, hello: Hello, overTLS: bool, at: Clocked, fa: bool, sub: string) {
    var tok := hello.tok;
    var claims := Token.Parse(at.env, a.signing, tok, at.now);
    var signed := a.signing != [] && Token.PREFIX <= tok;
    // An open server, a signed token that is good and unrevoked, or a known static token.
    && (a.open || (tok != "" && if signed then claims.Ok? && claims.value.id !in a.revoked else tok in a.tokens))
    // A name nobody assigned is valid or left to the server.
    && (sub == "" || ValidSubdomain(sub) || (signed && claims.Ok? && claims.value.sub == sub))
    // A reserved name is for its listed ids, over TLS.
    && (sub in a.reservedNames ==>
          signed && claims.Ok? && claims.value.id !in a.revoked && claims.value.id in a.reservedNames[sub] && overTLS)
    // Protection, asked for or mandated, needs a provider.
    && (hello.isProtected || (signed && claims.Ok? && claims.value.prot) ==> fa)
  }

  /** Exactly the acceptable hellos are admitted, under the holder's own id and with the protection they call for. */
  lemma AdmittedIffAcceptable(a: Authenticator, lower: char -> char, hello: Hello, overTLS: bool, at: Clocked, fa: bool,
                              scope: string)
    requires WellFormed(a) && Scope(a, at, hello.tok, scope)
    ensures var r := Admit(a, lower, hello, overTLS, at, fa);
            var sub := if scope != "" then scope else NormalizeSubdomain(lower, hello.subdomain);
            && (r.Ok? <==> Acceptable(a, hello, overTLS, at, fa, sub))
            && (r.Ok? ==>
                  var claims := Token.Parse(at.env, a.signing, hello.tok, at.now);
                  var signed := a.signing != [] && Token.PREFIX <= hello.tok;
                  && r.value.hello == hello && r.value.overTLS == overTLS && r.value.at == at && r.value.sub == sub
                  && r.value.tokenId == (if signed && claims.Ok? then claims.value.id else "")
                  && r.value.isProtected == (hello.isProtected || (signed && claims.Ok? && claims.value.prot)))
  {
    Token.IdOfAgrees(at.env, a.signing, hello.tok, at.now);
  }

  /** A listed id without TLS is told to come back with it. */
  lemma TlsIsAskedFor(a: Authenticator, lower: char -> char, hello: Hello, at: Clocked, fa: bool)
    requires WellFormed(a)
    ensures var r := Admit(a, lower, hello, false, at, fa);
            (exists name :: r == Err(Refused(TlsRequired(name)))) <==>
              && Admit(a, lower, hello, true, at, true).Ok?
              && Admit(a, lower, hello, true, at, true).value.sub in a.reservedNames
  {
    var t := Admit(a, lower, hello, true, at, true);
    if t.Ok? && t.value.sub in a.reservedNames {
      assert Admit(a, lower, hello, false, at, fa) == Err(Refused(TlsRequired(t.value.sub)));
    }
  }

  /** A valid name holds small letters, digits and hyphens only. */
  lemma ValidSubdomainChars(s: string, c: char)
    requires ValidSubdomain(s) && c in s
    ensures c == '-' || c in "abcdefghijklmnopqrstuvwxyz0123456789"
  {
  }

  /** It has one to 63 of them, and any so many letters and digits will do. */
  lemma ValidSubdomainLength(s: string)
    ensures |s| > 63 || s == "" ==> !ValidSubdomain(s)
    ensures 1 <= |s| <= 63 && (forall k :: 0 <= k < |s| ==> 'a' <= s[k] <= 'z' || '0' <= s[k] <= '9') ==> ValidSubdomain(s)
  {
  }

  /** A hyphen may stand anywhere but in front. */
  lemma ValidSubdomainHyphen(a: string, b: string)
    requires |a| + |b| < 63 && ValidSubdomain(a) && (b == "" || ValidSubdomain(b))
    ensures ValidSubdomain(a + "-" + b) && !ValidSubdomain("-" + a)
  {
  }

  const ALPHABET := "abcdefghijklmnopqrstuvwxyz0123456789"

  /** The low `k` base-36 digits of `n`, least significant first. */
  function Digits36(n: nat, k: nat): (s: string)
    ensures |s| == k && forall j :: 0 <= j < k ==> LabelChar(s[j])
  {
    if k == 0 then "" else [Label(n % 36)] + Digits36(n / 36, k - 1)
  }

  function Label(d: nat): (c: char)
    requires d < 36
    ensures c == ALPHABET[d] && LabelChar(c)
  {
    if d < 26 then 'a' + d as char else '0' + (d - 26) as char
  }

  /** One more digit. */
  lemma DigitsStep(made: string, m: nat, k: nat)
    requires k > 0
    ensures made + Digits36(m, k) == made + [Label(m % 36)] + Digits36(m / 36, k - 1)
  {
  }

  /** randomSubdomain, given the 32 random bits it read. */
  method RandomSubdomain(n: nat) returns (name: string)
    requires n < 0x1_0000_0000
    ensures name == Digits36(n, 6) && ValidSubdomain(name)
  {
    var out := new char[6](_ => 'a');
    var m := n;
    ghost var made := "";
    for i := 0 to 6
      invariant out[..i] == made
      invariant made + Digits36(m, 6 - i) == Digits36(n, 6)
    {
      DigitsStep(made, m, 6 - i);
      out[i] := ALPHABET[m % 36];
      made := made + [Label(m % 36)];
      assert out[..i + 1] == out[..i] + [out[i]];
      m := m / 36;
    }
    name := out[..];
    assert out[..] == out[..6];
  }

  /** The number a label letter stands for. */
  function LabelValue(c: char): (d: nat)
    requires LabelChar(c)
    ensures d < 36
  {
    if 'a' <= c <= 'z' then c as int - 'a' as int else c as int - '0' as int + 26
  }

  function Number36(s: string): nat
    requires forall j :: 0 <= j < |s| ==> LabelChar(s[j])
  {
    if s == "" then 0 else LabelValue(s[0]) + 36 * Number36(s[1..])
  }

  function Pow36(k: nat): nat {
    if k == 0 then 1 else 36 * Pow36(k - 1)
  }

  /** Different numbers make different names, as far as six digits reach: none of the 36^6 is favoured. */
  lemma {:induction false} DigitsReadBack(n: nat, k: nat)
    requires n < Pow36(k)
    ensures Number36(Digits36(n, k)) == n
  {
    if k > 0 {
      DigitsReadBack(n / 36, k - 1);
      assert LabelValue(Label(n % 36)) == n % 36;
      assert Digits36(n, k)[1..] == Digits36(n / 36, k - 1);
    }
  }

  lemma SixDigits()
    ensures Pow36(6) == 2176782336
  {
    assert Pow36(3) == 46656;
    assert Pow36(4) == 1679616;
    assert Pow36(5) == 60466176;
  }
}

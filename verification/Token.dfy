/** Signed tunnel tokens (token.go), with HMAC and JSON as functions of the environment. */
module Token {
  import opened Basics
  import Sealed

  const PREFIX := "m1."

  datatype Claims = Claims(sub: string, exp: int, id: string, prot: bool)

  datatype ParseErr = EmptyKey | Malformed | BadSig | Expired

  /** HMAC-SHA256, json.Marshal and json.Unmarshal of claims. */
  datatype Env = Env(
    mac: (seq<byte>, seq<byte>) -> seq<byte>,
    marshal: Claims -> seq<byte>,
    unmarshal: seq<byte> -> Option<Claims>
  )

  /** Decoding undoes encoding, for claims of interest. */
  ghost predicate JsonOk(env: Env, c: Claims) {
    env.unmarshal(env.marshal(c)) == Some(c)
  }

  /** Unix seconds of an instant in nanoseconds. */
  function Unix(now: int): int {
    now / 1_000_000_000
  }

  /** The claims MintWith signs at `now` under the random id `id`. */
  function Minted(sub: string, ttl: int, prot: bool, id: string, now: int): Claims {
    Claims(sub, if ttl > 0 then Unix(now + ttl) else 0, id, prot)
  }

  function MintWith(env: Env, key: seq<byte>, c: Claims): Result<string, ParseErr> {
    if key == [] then Err(EmptyKey)
    else
      var payload := env.marshal(c);
      Ok(Sealed.Seal(PREFIX, payload, env.mac(key, payload)))
  }

  predicate ExpiredAt(c: Claims, now: int) {
    c.exp != 0 && Unix(now) > c.exp
  }

  function Parse(env: Env, key: seq<byte>, tok: string, now: int): Result<Claims, ParseErr> {
    if key == [] then Err(EmptyKey)
    else
      var o := Sealed.Open(PREFIX, tok);
      if o.None? then Err(Malformed)
      else if o.value.sig != env.mac(key, o.value.payload) then Err(BadSig)
      else
        var c := env.unmarshal(o.value.payload);
        if c.None? || c.value.id == "" then Err(Malformed)
        else if ExpiredAt(c.value, now) then Err(Expired)
        else Ok(c.value)
  }

  /** IDOf reads the id without checking the signature; "" means not a token. */
  function IdOf(env: Env, tok: string): string {
    var p := Sealed.Peek(PREFIX, tok);
    if p.None? then ""
    else
      var c := env.unmarshal(p.value);
      if c.None? then "" else c.value.id
  }

  /** The error Parse reports on a well-made token at `now`. */
  function Verdict(c: Claims, now: int): Result<Claims, ParseErr> {
    if c.id == "" then Err(Malformed) else if ExpiredAt(c, now) then Err(Expired) else Ok(c)
  }

  /** A minted token parses back to exactly its claims until it expires, and to nothing after. */
  lemma MintParse(env: Env, key: seq<byte>, c: Claims, now: int)
    requires key != [] && JsonOk(env, c)
    ensures MintWith(env, key, c).Ok?
    ensures var tok := MintWith(env, key, c).value;
            Parse(env, key, tok, now) == Verdict(c, now) && IdOf(env, tok) == c.id && PREFIX <= tok
  {
    var payload := env.marshal(c);
    Sealed.OpenSeal(PREFIX, payload, env.mac(key, payload));
  }

  /**
    In terms of the lifetime: good for every whole second up to now + ttl; for
    ever without a ttl, and also if the expiry lands on second zero, which the
    claims cannot tell from no expiry.
   */
  lemma LifetimeExact(env: Env, key: seq<byte>, sub: string, ttl: int, prot: bool, id: string, now: int, later: int)
    requires var c := Minted(sub, ttl, prot, id, now); key != [] && id != "" && JsonOk(env, c)
    ensures var c := Minted(sub, ttl, prot, id, now);
            var r := Parse(env, key, MintWith(env, key, c).value, later);
            if ttl <= 0 || Unix(now + ttl) == 0 || Unix(later) <= Unix(now + ttl) then r == Ok(c) else r == Err(Expired)
  {
    MintParse(env, key, Minted(sub, ttl, prot, id, now), later);
  }

  /** Minted one second before 1970 for one second, a token is good for ever. */
  lemma ZeroExpiryNeverExpires(env: Env, key: seq<byte>, sub: string, prot: bool, id: string, later: int)
    requires key != [] && id != "" && JsonOk(env, Claims(sub, 0, id, prot))
    ensures var second := 1_000_000_000;
            var c := Minted(sub, second, prot, id, -second);
            c.exp == 0 && Parse(env, key, MintWith(env, key, c).value, later) == Ok(c)
  {
    LifetimeExact(env, key, sub, 1_000_000_000, prot, id, -1_000_000_000, later);
  }

  /** Looking a token up for the deny list finds the id the server sees. */
  lemma IdOfAgrees(env: Env, key: seq<byte>, tok: string, now: int)
    ensures var r := Parse(env, key, tok, now); r.Ok? ==> r.value.id != "" && IdOf(env, tok) == r.value.id
  {
  }

  /** An accepted token carries the key's own mac over the claims it was accepted for. */
  lemma AcceptedIsSigned(env: Env, key: seq<byte>, tok: string, now: int)
    requires Parse(env, key, tok, now).Ok?
    ensures exists payload, sig ::
              && Sealed.Open(PREFIX, tok) == Some(Sealed.Opened(payload, sig))
              && sig == env.mac(key, payload)
              && env.unmarshal(payload) == Some(Parse(env, key, tok, now).value)
  {
    var o := Sealed.Open(PREFIX, tok).value;
    assert Sealed.Open(PREFIX, tok) == Some(Sealed.Opened(o.payload, o.sig));
  }

  /** A token is the letters m1, a dot, and its claims and their mac in base64url with a dot between. */
  lemma MintedText(env: Env, key: seq<byte>, c: Claims)
    requires key != []
    ensures MintWith(env, key, c)
         == Ok("m1." + Sealed.Encode(env.marshal(c)) + "." + Sealed.Encode(env.mac(key, env.marshal(c))))
  {
  }

  /** What is minted is what was asked for, and ends after its lifetime, or never without one. */
  lemma MintedClaims(sub: string, ttl: int, prot: bool, id: string, now: int)
    ensures Minted(sub, ttl, prot, id, now)
         == Claims(sub, if ttl > 0 then (now + ttl) / 1_000_000_000 else 0, id, prot)
  {
  }

  /** In nanoseconds: good until the last instant of the second its lifetime ends in. */
  lemma LifetimeInNanoseconds(env: Env, key: seq<byte>, sub: string, ttl: int, prot: bool, id: string, now: int, later: int)
    requires var c := Minted(sub, ttl, prot, id, now); key != [] && id != "" && JsonOk(env, c)
    requires ttl > 0 && now >= 1_000_000_000
    ensures Parse(env, key, MintWith(env, key, Minted(sub, ttl, prot, id, now)).value, later).Ok?
        <==> later < ((now + ttl) / 1_000_000_000 + 1) * 1_000_000_000
  {
    LifetimeExact(env, key, sub, ttl, prot, id, now, later);
  }

  /** What Parse says of a token that is not accepted. */
  lemma RefusedFor(env: Env, key: seq<byte>, payload: seq<byte>, sig: seq<byte>, now: int)
    requires key != []
    ensures var tok := Sealed.Seal("m1.", payload, sig);
            && (sig != env.mac(key, payload) ==> Parse(env, key, tok, now) == Err(BadSig))
            && (sig == env.mac(key, payload) && (env.unmarshal(payload).None? || env.unmarshal(payload).value.id == "")
                ==> Parse(env, key, tok, now) == Err(Malformed))
  {
    Sealed.OpenSeal(PREFIX, payload, sig);
  }
}

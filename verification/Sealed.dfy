/**
  Signed strings: `prefix base64url(payload) "." base64url(mac)`, shared by
  tunnel tokens and session cookies. Base64 is RawURLEncoding as Go decodes it:
  no padding, line breaks skipped, unused trailing bits ignored (RFC 4648,
  section 5).
 */
module Sealed {
  import opened Basics

  type sextet = n: int | 0 <= n < 64

  function Digit(n: sextet): char {
    if n < 26 then 'A' + n as char
    else if n < 52 then 'a' + (n - 26) as char
    else if n < 62 then '0' + (n - 52) as char
    else if n == 62 then '-' else '_'
  }

  function ValueOf(c: char): Option<sextet> {
    if 'A' <= c <= 'Z' then Some(c as int - 'A' as int)
    else if 'a' <= c <= 'z' then Some(c as int - 'a' as int + 26)
    else if '0' <= c <= '9' then Some(c as int - '0' as int + 52)
    else if c == '-' then Some(62)
    else if c == '_' then Some(63)
    else None
  }

  lemma DigitValue(n: sextet)
    ensures ValueOf(Digit(n)) == Some(n)
  {
  }

  /** The four sextets of three bytes. */
  function Four(x: byte, y: byte, z: byte): (v: seq<sextet>)
    ensures |v| == 4
  {
    [x / 4, x % 4 * 16 + y / 16, y % 16 * 4 + z / 64, z % 64]
  }

  /** Three bytes as four sextets; one or two bytes as two or three. */
  function Pack(b: seq<byte>): seq<sextet> {
    if b == [] then []
    else if |b| == 1 then Four(b[0], 0, 0)[..2]
    else if |b| == 2 then Four(b[0], b[1], 0)[..3]
    else Four(b[0], b[1], b[2]) + Pack(b[3..])
  }

  function Digits(v: seq<sextet>): string {
    if v == [] then "" else [Digit(v[0])] + Digits(v[1..])
  }

  function Encode(b: seq<byte>): string {
    Digits(Pack(b))
  }

  /** The sextets of a string without line breaks. */
  function Values(s: string): Option<seq<sextet>> {
    if s == "" then Some([])
    else
      var v, vs := ValueOf(s[0]), Values(s[1..]);
      if v.None? || vs.None? then None else Some([v.value] + vs.value)
  }

  function First(v: sextet, w: sextet): byte {
    (v as int) * 4 + w / 16
  }

  function Second(v: sextet, w: sextet): byte {
    (v % 16 as int) * 16 + w / 4
  }

  function Third(v: sextet, w: sextet): byte {
    (v % 4 as int) * 64 + w
  }

  function Unpack(v: seq<sextet>): Option<seq<byte>> {
    if v == [] then Some([])
    else if |v| == 1 then None
    else if |v| == 2 then Some([First(v[0], v[1])])
    else if |v| == 3 then Some([First(v[0], v[1]), Second(v[1], v[2])])
    else
      var r := Unpack(v[4..]);
      if r.None? then None else Some([First(v[0], v[1]), Second(v[1], v[2]), Third(v[2], v[3])] + r.value)
  }

  function SkipBreaks(s: string): string {
    if s == "" then ""
    else if s[0] == '\r' || s[0] == '\n' then SkipBreaks(s[1..])
    else [s[0]] + SkipBreaks(s[1..])
  }

  function Decode(s: string): Option<seq<byte>> {
    var v := Values(SkipBreaks(s));
    if v.None? then None else Unpack(v.value)
  }

  lemma {:induction false} ValuesDigits(v: seq<sextet>)
    ensures Values(Digits(v)) == Some(v) && SkipBreaks(Digits(v)) == Digits(v)
    ensures '.' !in Digits(v)
  {
    if v != [] {
      DigitValue(v[0]);
      ValuesDigits(v[1..]);
      assert Digits(v)[1..] == Digits(v[1..]);
      assert v == [v[0]] + v[1..];
    }
  }

  /** Three bytes survive as four sextets. */
  lemma FourBack(x: byte, y: byte, z: byte)
    ensures var v := Four(x, y, z);
            First(v[0], v[1]) == x && Second(v[1], v[2]) == y && Third(v[2], v[3]) == z
  {
  }

  lemma UnpackFour(v: seq<sextet>, rest: seq<sextet>)
    requires |v| == 4
    ensures var r := Unpack(rest);
            Unpack(v + rest) == if r.None? then None
                                else Some([First(v[0], v[1]), Second(v[1], v[2]), Third(v[2], v[3])] + r.value)
  {
    assert (v + rest)[4..] == rest;
  }

  lemma {:induction false} UnpackPack(b: seq<byte>)
    ensures Unpack(Pack(b)) == Some(b)
  {
    if |b| == 1 {
      FourBack(b[0], 0, 0);
      assert b == [b[0]];
    } else if |b| == 2 {
      FourBack(b[0], b[1], 0);
      assert b == [b[0], b[1]];
    } else if |b| >= 3 {
      FourBack(b[0], b[1], b[2]);
      UnpackPack(b[3..]);
      UnpackFour(Four(b[0], b[1], b[2]), Pack(b[3..]));
      assert b == [b[0], b[1], b[2]] + b[3..];
    }
  }

  /** Decode undoes Encode on every byte string, and no encoding contains a dot. */
  lemma DecodeEncode(b: seq<byte>)
    ensures Decode(Encode(b)) == Some(b) && '.' !in Encode(b)
  {
    ValuesDigits(Pack(b));
    UnpackPack(b);
  }

  function Seal(prefix: string, payload: seq<byte>, sig: seq<byte>): string {
    prefix + Encode(payload) + "." + Encode(sig)
  }

  datatype Opened = Opened(payload: seq<byte>, sig: seq<byte>)

  /** Split and decode a sealed string; None is malformed. */
  function Open(prefix: string, s: string): Option<Opened> {
    if !(prefix <= s) then None
    else
      var body := s[|prefix|..];
      var dot := IndexOf(body, '.');
      if dot == |body| then None
      else
        var payload, sig := Decode(body[..dot]), Decode(body[dot + 1..]);
        if payload.None? || sig.None? then None else Some(Opened(payload.value, sig.value))
  }

  /** The payload alone, as far as it can be read; the signature may be anything. */
  function Peek(prefix: string, s: string): Option<seq<byte>> {
    if !(prefix <= s) then None
    else
      var body := s[|prefix|..];
      var dot := IndexOf(body, '.');
      if dot == |body| then None else Decode(body[..dot])
  }

  lemma OpenSeal(prefix: string, payload: seq<byte>, sig: seq<byte>)
    ensures Open(prefix, Seal(prefix, payload, sig)) == Some(Opened(payload, sig))
    ensures Peek(prefix, Seal(prefix, payload, sig)) == Some(payload)
  {
    DecodeEncode(payload);
    DecodeEncode(sig);
    var s := Seal(prefix, payload, sig);
    var body := s[|prefix|..];
    assert s == prefix + (Encode(payload) + "." + Encode(sig));
    assert body == Encode(payload) + ['.'] + Encode(sig);
    IndexOfFirst(Encode(payload), '.', Encode(sig));
    assert body[..|Encode(payload)|] == Encode(payload) && body[|Encode(payload)| + 1..] == Encode(sig);
  }

  /** Table 2 of RFC 4648: capitals, small letters, digits, '-' and '_', each run in order. */
  lemma DigitTable(n: sextet)
    ensures Digit(0) == 'A' && Digit(26) == 'a' && Digit(52) == '0' && Digit(62) == '-' && Digit(63) == '_'
    ensures n < 62 && n !in {25, 51, 61} ==> Digit(n + 1) as int == Digit(n) as int + 1
  {
  }

  lemma DigitsMore(a: sextet, b: sextet, v: seq<sextet>)
    ensures Digits([a, b] + v) == [Digit(a), Digit(b)] + Digits(v)
  {
    assert ([a, b] + v)[1..] == [b] + v && ([b] + v)[1..] == v;
  }

  lemma DigitsTwo(a: sextet, b: sextet)
    ensures Digits([a, b]) == [Digit(a), Digit(b)]
  {
    DigitsMore(a, b, []);
    assert [a, b] + [] == [a, b];
  }

  /** Test vectors of RFC 4648, section 10, without their padding. */
  lemma VectorOne()
    ensures Encode([102]) == "Zg"
  {
    assert Pack([102]) == [25, 32];
    DigitsTwo(25, 32);
  }

  lemma VectorTwo()
    ensures Encode([102, 111]) == "Zm8"
  {
    assert Pack([102, 111]) == [25, 38] + [60];
    DigitsMore(25, 38, [60]);
  }

  lemma VectorThree()
    ensures Encode([102, 111, 111]) == "Zm9v"
  {
    assert [102, 111, 111][3..] == [];
    assert Pack([102, 111, 111]) == [25, 38] + [61, 47];
    DigitsMore(25, 38, [61, 47]);
    DigitsTwo(61, 47);
  }

  /** The written form: prefix, payload, a dot, mac. */
  lemma SealText(prefix: string, payload: seq<byte>, sig: seq<byte>)
    ensures Seal(prefix, payload, sig) == prefix + Encode(payload) + "." + Encode(sig)
  {
  }

  /** `s` is the prefix, then two parts around a first dot that decode to `o`. */
  predicate Parts(prefix: string, s: string, a: string, b: string, o: Opened) {
    '.' !in a && s == prefix + a + "." + b && Decode(a) == Some(o.payload) && Decode(b) == Some(o.sig)
  }

  /** Exactly those strings open. */
  lemma OpensExactly(prefix: string, s: string, o: Opened)
    ensures Open(prefix, s) == Some(o) <==> exists a: string, b: string :: Parts(prefix, s, a, b, o)
  {
    if Open(prefix, s) == Some(o) {
      OpenedHasParts(prefix, s, o);
    }
    if a: string, b: string :| Parts(prefix, s, a, b, o) {
      PartsOpen(prefix, s, a, b, o);
    }
  }

  lemma OpenedHasParts(prefix: string, s: string, o: Opened)
    requires Open(prefix, s) == Some(o)
    ensures exists a: string, b: string :: Parts(prefix, s, a, b, o)
  {
    var body := s[|prefix|..];
    var dot := IndexOf(body, '.');
    Cut(prefix, s, dot);
    assert Parts(prefix, s, body[..dot], body[dot + 1..], o);
  }

  lemma Cut(prefix: string, s: string, dot: nat)
    requires prefix <= s && dot < |s| - |prefix| && s[|prefix|..][dot] == '.'
    ensures var body := s[|prefix|..]; s == prefix + body[..dot] + "." + body[dot + 1..]
  {
  }

  lemma PartsOpen(prefix: string, s: string, a: string, b: string, o: Opened)
    requires Parts(prefix, s, a, b, o)
    ensures Open(prefix, s) == Some(o)
  {
    var body := s[|prefix|..];
    assert s == prefix + (a + "." + b) && body == a + ['.'] + b;
    IndexOfFirst(a, '.', b);
    assert body[..|a|] == a && body[|a| + 1..] == b;
  }

  lemma {:induction false} SkipAppend(a: string, b: string)
    ensures SkipBreaks(a + b) == SkipBreaks(a) + SkipBreaks(b)
  {
    if a == "" {
      assert a + b == b;
    } else {
      assert (a + b)[1..] == a[1..] + b;
      SkipAppend(a[1..], b);
    }
  }

  /** Line breaks in an encoding do not matter. */
  lemma BreaksAreSkipped(a: string, c: char, b: string)
    requires c == '\r' || c == '\n'
    ensures Decode(a + [c] + b) == Decode(a + b)
  {
    SkipAppend(a + [c], b);
    SkipAppend(a, [c]);
    SkipAppend(a, b);
    assert SkipBreaks([c]) == "" by { assert [c][1..] == ""; }
    assert SkipBreaks(a) + "" == SkipBreaks(a);
  }

  lemma {:induction false} BadValues(a: string, c: char, b: string)
    requires ValueOf(c) == None
    ensures Values(a + [c] + b) == None
  {
    var s := a + [c] + b;
    if a == "" {
      assert s[0] == c;
    } else {
      assert s[0] == a[0] && s[1..] == a[1..] + [c] + b;
      BadValues(a[1..], c, b);
    }
  }

  /** Any other character outside the alphabet makes it malformed, padding included. */
  lemma BadCharacter(a: string, c: char, b: string)
    requires c != '\r' && c != '\n'
    requires !('A' <= c <= 'Z') && !('a' <= c <= 'z') && !('0' <= c <= '9') && c != '-' && c != '_'
    ensures Decode(a + [c] + b) == None
  {
    SkipAppend(a + [c], b);
    SkipAppend(a, [c]);
    assert SkipBreaks([c]) == [c] by { assert [c][1..] == ""; }
    BadValues(SkipBreaks(a), c, SkipBreaks(b));
  }
}

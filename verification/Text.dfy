/** The string handling the server and client share: white space, trimming, fields. */
module Text {
  /** unicode.IsSpace. */
  predicate IsSpace(c: char) {
    || '\t' <= c <= '\r' || c == ' ' || c == '\U{85}' || c == '\U{A0}' || c == '\U{1680}'
    || '\U{2000}' <= c <= '\U{200A}' || c == '\U{2028}' || c == '\U{2029}' || c == '\U{202F}'
    || c == '\U{205F}' || c == '\U{3000}'
  }

  function TrimLeft(s: string): string {
    if s != "" && IsSpace(s[0]) then TrimLeft(s[1..]) else s
  }

  function TrimRight(s: string): string {
    if s != "" && IsSpace(s[|s| - 1]) then TrimRight(s[..|s| - 1]) else s
  }

  /** strings.TrimSpace. */
  function Trim(s: string): string {
    TrimRight(TrimLeft(s))
  }

  function MapChars(f: char -> char, s: string): (r: string)
    ensures |r| == |s| && forall k :: 0 <= k < |s| ==> r[k] == f(s[k])
  {
    seq(|s|, i requires 0 <= i < |s| => f(s[i]))
  }

  function Width(c: char): nat {
    if c < '\U{80}' then 1 else if c < '\U{800}' then 2 else if c < '\U{10000}' then 3 else 4
  }

  /** Bytes of UTF-8. */
  function Bytes(s: string): nat {
    if s == "" then 0 else Width(s[0]) + Bytes(s[1..])
  }

  /** bufio.Scanner gives up at a line that does not fit its 64 KiB buffer with room to spare. */
  predicate Fits(line: string) {
    Bytes(line) < 65536
  }

  predicate Blank(s: string) {
    forall i :: 0 <= i < |s| ==> IsSpace(s[i])
  }

  /** Nothing to trim at either end. */
  predicate Tight(s: string) {
    s == "" || (!IsSpace(s[0]) && !IsSpace(s[|s| - 1]))
  }

  lemma {:induction false} TrimLeftPad(a: string, s: string)
    requires Blank(a) && (s == "" || !IsSpace(s[0]))
    ensures TrimLeft(a + s) == s
  {
    if a == "" {
      assert a + s == s;
    } else {
      assert (a + s)[1..] == a[1..] + s;
      TrimLeftPad(a[1..], s);
    }
  }

  lemma {:induction false} TrimRightPad(s: string, b: string)
    requires Blank(b) && (s == "" || !IsSpace(s[|s| - 1]))
    ensures TrimRight(s + b) == s
  {
    if b == "" {
      assert s + b == s;
    } else {
      assert (s + b)[..|s + b| - 1] == s + b[..|b| - 1];
      TrimRightPad(s, b[..|b| - 1]);
    }
  }

  lemma {:induction false} TrimLeftBlank(a: string)
    requires Blank(a)
    ensures TrimLeft(a) == ""
  {
    TrimLeftPad(a, "");
    assert a + "" == a;
  }

  /** White space around a text goes, all of it and nothing else. */
  lemma TrimPad(a: string, s: string, b: string)
    requires Blank(a) && Tight(s) && Blank(b)
    ensures Trim(a + s + b) == s
  {
    assert a + s + b == a + (s + b);
    if s == "" {
      assert a + s + b == a + b && Blank(a + b);
      TrimLeftBlank(a + b);
    } else {
      TrimLeftPad(a, s + b);
      TrimRightPad(s, b);
    }
  }

  /** What counts as white space among the ASCII characters. */
  lemma AsciiSpaces(c: char)
    requires c < '\U{80}'
    ensures IsSpace(c) <==> c in "\t\n\U{0B}\U{0C}\r "
  {
  }

  /** An ASCII line fits exactly below 65536 characters. */
  lemma {:induction false} AsciiBytes(s: string)
    requires forall i :: 0 <= i < |s| ==> s[i] < '\U{80}'
    ensures Bytes(s) == |s| && (Fits(s) <==> |s| < 65536)
  {
    if s != "" {
      AsciiBytes(s[1..]);
    }
  }

  /** The lengths of UTF-8. */
  lemma WidthTable(c: char)
    ensures Width(c) == (if c as int < 0x80 then 1 else if c as int < 0x800 then 2 else if c as int < 0x1_0000 then 3 else 4)
  {
  }
}

/**
  The client's config file: the rewriter of `munnel token` (main.go) against the
  parser that reads it back (defaults.go). Text is a sequence of Unicode
  characters; `lower` is unicode.ToLower.
 */
module Config {
  import opened Basics
  import opened Text

  // ---- Lines ----

  function Split(text: string): (lines: seq<string>)
    ensures lines != []
    decreases |text|
  {
    var k := IndexOf(text, '\n');
    if k == |text| then [text] else [text[..k]] + Split(text[k + 1..])
  }

  function Join(lines: seq<string>): string {
    if lines == [] then "" else if |lines| == 1 then lines[0] else lines[0] + "\n" + Join(lines[1..])
  }

  /** strings.TrimRight(text, "\n"). */
  function TrimBreaks(text: string): string {
    if text != "" && text[|text| - 1] == '\n' then TrimBreaks(text[..|text| - 1]) else text
  }

  predicate OneLine(line: string) {
    '\n' !in line
  }

  ghost predicate OneLiners(lines: seq<string>) {
    forall i :: 0 <= i < |lines| ==> OneLine(lines[i])
  }

  function DropBlank(lines: seq<string>): seq<string> {
    if lines != [] && lines[|lines| - 1] == "" then DropBlank(lines[..|lines| - 1]) else lines
  }

  // ---- What a line says ----

  /** The trimmed line cut at its first '=', unless it is blank, a comment or has none. */
  function Cut(line: string): Option<(string, string)> {
    var t := Trim(line);
    var k := IndexOf(t, '=');
    if t == "" || t[0] == '#' || k == |t| then None else Some((t[..k], t[k + 1..]))
  }

  /** strings.EqualFold(s, "token"); the Kelvin sign folds to k. */
  predicate FoldsToToken(s: string) {
    |s| == 5 && s[0] in "tT" && s[1] in "oO" && s[2] in "kK\U{212A}" && s[3] in "eE" && s[4] in "nN"
  }

  predicate IsToken(line: string) {
    var c := Cut(line);
    c.Some? && FoldsToToken(Trim(c.value.0))
  }

  const KEY := "token"

  /** What the code relies on about unicode.ToLower. */
  ghost predicate LowerOk(lower: char -> char) {
    && (forall c :: IsSpace(lower(c)) <==> IsSpace(c))
    && (forall c :: lower(c) == 't' <==> c in "tT")
    && (forall c :: lower(c) == 'o' <==> c in "oO")
    && (forall c :: lower(c) == 'k' <==> c in "kK\U{212A}")
    && (forall c :: lower(c) == 'e' <==> c in "eE")
    && (forall c :: lower(c) == 'n' <==> c in "nN")
  }

  // ---- The parser ----

  type Settings = map<string, string>

  /** What a line sets, if anything. */
  type Reading = string -> Option<(string, string)>

  function Entry(lower: char -> char, line: string): Option<(string, string)> {
    var c := Cut(line);
    if c.None? then None else Some((Trim(MapChars(lower, c.value.0)), Trim(c.value.1)))
  }

  function Reader(lower: char -> char): Reading {
    line => Entry(lower, line)
  }

  function Put(m: Settings, e: Option<(string, string)>): Settings {
    if e.None? then m else m[e.value.0 := e.value.1]
  }

  function LoadLines(read: Reading, fits: string -> bool, m: Settings, lines: seq<string>): Settings
    decreases |lines|
  {
    if lines == [] || !fits(lines[0]) then m else LoadLines(read, fits, Put(m, read(lines[0])), lines[1..])
  }

  function Load(lower: char -> char, text: string): Settings {
    LoadLines(Reader(lower), Fits, map[], Split(text))
  }

  method LoadConfig(lower: char -> char, text: string) returns (out: Settings)
    ensures out == Load(lower, text)
  {
    out := map[];
    var lines := Split(text);
    var i := 0;
    while i < |lines| && Fits(lines[i])
      invariant i <= |lines|
      invariant LoadLines(Reader(lower), Fits, out, lines[i..]) == Load(lower, text)
    {
      var line := Trim(lines[i]);
      var rest := lines[i..];
      assert rest[0] == lines[i] && rest[1..] == lines[i + 1..];
      i := i + 1;
      if line == "" || line[0] == '#' {
        continue;
      }
      var k := IndexOf(line, '=');
      if k == |line| {
        continue;
      }
      out := out[Trim(MapChars(lower, line[..k])) := Trim(line[k + 1..])];
    }
  }

  // ---- The rewriter ----

  /** Which lines are token lines does not matter to how lines are replaced. */
  type Kind = string -> bool

  function Others(kind: Kind, lines: seq<string>): seq<string> {
    if lines == [] then []
    else if kind(lines[0]) then Others(kind, lines[1..])
    else [lines[0]] + Others(kind, lines[1..])
  }

  /** Where the new line goes: in place of the first of its kind, or at the end. */
  function Place(kind: Kind, lines: seq<string>): (k: nat)
    ensures k <= |lines| && (k < |lines| ==> kind(lines[k]))
  {
    if lines == [] || kind(lines[0]) then 0 else 1 + Place(kind, lines[1..])
  }

  function Rewritten(kind: Kind, lines: seq<string>, line: string): seq<string> {
    lines[..Place(kind, lines)] + [line] + Others(kind, lines[Place(kind, lines)..])
  }

  function Line(tok: string): string {
    "token=" + tok
  }

  function Rewrite(text: string, tok: string): string {
    TrimBreaks(Join(Rewritten(IsToken, Split(text), Line(tok)))) + "\n"
  }

  /** The loop's first turn. */
  lemma RewrittenStep(kind: Kind, lines: seq<string>, line: string)
    requires lines != []
    ensures Rewritten(kind, lines, line) == if kind(lines[0]) then [line] + Others(kind, lines[1..])
                                          else [lines[0]] + Rewritten(kind, lines[1..], line)
  {
    var rest := lines[1..];
    if kind(lines[0]) {
      assert lines[..0] == [] && lines[0..] == lines;
    } else {
      var k := Place(kind, rest);
      assert lines[..k + 1] == [lines[0]] + rest[..k] && lines[k + 1..] == rest[k..];
    }
  }

  lemma Regroup(a: seq<string>, x: string, b: seq<string>)
    ensures a + [x] + b == a + ([x] + b)
  {
  }

  method RewriteLines(kind: Kind, all: seq<string>, line: string) returns (lines: seq<string>)
    ensures lines == Rewritten(kind, all, line)
  {
    lines := [];
    var replaced := false;
    ghost var rest := all;     // what is left of `all`
    for i := 0 to |all|
      invariant rest == all[i..]
      invariant !replaced ==> lines + Rewritten(kind, rest, line) == Rewritten(kind, all, line)
      invariant replaced ==> lines + Others(kind, rest) == Rewritten(kind, all, line)
    {
      RewrittenStep(kind, rest, line);
      rest := rest[1..];
      if kind(all[i]) {
        if !replaced {
          Regroup(lines, line, Others(kind, rest));
          lines := lines + [line];
          replaced := true;
        }
        continue; // drop duplicates
      }
      Regroup(lines, all[i], if replaced then Others(kind, rest) else Rewritten(kind, rest, line));
      lines := lines + [all[i]];
    }
    if !replaced {
      lines := lines + [line];
    }
  }

  method UpdateConfigToken(text: string, tok: string) returns (out: string)
    ensures out == Rewrite(text, tok)
  {
    var lines := RewriteLines(IsToken, Split(text), Line(tok));
    out := TrimBreaks(Join(lines)) + "\n";
  }

  lemma {:induction false} OthersAppend(kind: Kind, a: seq<string>, b: seq<string>)
    ensures Others(kind, a + b) == Others(kind, a) + Others(kind, b)
  {
    if a == [] {
      assert a + b == b;
    } else {
      assert (a + b)[1..] == a[1..] + b;
      OthersAppend(kind, a[1..], b);
    }
  }
}

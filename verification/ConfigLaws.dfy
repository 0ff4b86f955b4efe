/** What rewriting the config file does to what the client reads from it. */
module ConfigLaws {
  import opened Basics
  import opened Text
  import opened Config

  // ---- Text and lines ----

  lemma {:induction false} SplitIsOneLiners(text: string)
    ensures OneLiners(Split(text))
    decreases |text|
  {
    var k := IndexOf(text, '\n');
    if k == |text| {
      assert text[..k] == text;
    } else {
      SplitIsOneLiners(text[k + 1..]);
    }
  }

  lemma {:induction false} SplitJoin(lines: seq<string>)
    requires lines != [] && OneLiners(lines)
    ensures Split(Join(lines)) == lines
  {
    var text := Join(lines);
    if |lines| == 1 {
      assert '\n' !in text;
      assert IndexOf(text, '\n') == |text|;
    } else {
      var rest := Join(lines[1..]);
      IndexOfFirst(lines[0], '\n', rest);
      assert text == lines[0] + ['\n'] + rest;
      assert text[..|lines[0]|] == lines[0] && text[|lines[0]| + 1..] == rest;
      SplitJoin(lines[1..]);
    }
  }

  lemma {:induction false} JoinPush(lines: seq<string>, x: string)
    requires lines != []
    ensures Join(lines + [x]) == Join(lines) + "\n" + x
  {
    if |lines| == 1 {
      assert (lines + [x])[1..] == [x];
    } else {
      assert (lines + [x])[1..] == lines[1..] + [x];
      JoinPush(lines[1..], x);
    }
  }

  lemma {:induction false} TrimJoin(lines: seq<string>)
    requires OneLiners(lines)
    ensures TrimBreaks(Join(lines)) == Join(DropBlank(lines))
  {
    if |lines| == 1 {
      assert lines[..0] == [];
    } else if |lines| > 1 {
      var init, x := lines[..|lines| - 1], lines[|lines| - 1];
      assert lines == init + [x];
      JoinPush(init, x);
      if x == "" {
        assert Join(lines)[..|Join(lines)| - 1] == Join(init);
        TrimJoin(init);
      } else {
        assert Join(lines)[|Join(lines)| - 1] == x[|x| - 1];
      }
    }
  }

  lemma {:induction false} DropBlankAfter(a: seq<string>, x: string, b: seq<string>)
    requires x != ""
    ensures DropBlank(a + [x] + b) == a + [x] + DropBlank(b)
  {
    var all := a + [x] + b;
    if b != [] && b[|b| - 1] == "" {
      assert all[..|all| - 1] == a + [x] + b[..|b| - 1];
      DropBlankAfter(a, x, b[..|b| - 1]);
    } else {
      assert all[|all| - 1] == if b == [] then x else b[|b| - 1];
    }
  }

  // ---- Lines of one kind ----

  ghost predicate NoneOf(kind: Kind, lines: seq<string>) {
    forall i :: 0 <= i < |lines| ==> !kind(lines[i])
  }

  lemma {:induction false} OthersIsNoneOf(kind: Kind, lines: seq<string>)
    ensures NoneOf(kind, Others(kind, lines))
    ensures forall x :: x in Others(kind, lines) ==> x in lines
  {
    if lines != [] {
      OthersIsNoneOf(kind, lines[1..]);
    }
  }

  lemma {:induction false} OthersOfNone(kind: Kind, lines: seq<string>)
    requires NoneOf(kind, lines)
    ensures Others(kind, lines) == lines
  {
    if lines != [] {
      OthersOfNone(kind, lines[1..]);
    }
  }

  lemma {:induction false} BeforePlace(kind: Kind, lines: seq<string>)
    ensures NoneOf(kind, lines[..Place(kind, lines)])
  {
    if lines != [] && !kind(lines[0]) {
      BeforePlace(kind, lines[1..]);
      var k := Place(kind, lines[1..]);
      assert lines[..k + 1] == [lines[0]] + lines[1..][..k];
    }
  }

  lemma {:induction false} PlaceAt(kind: Kind, a: seq<string>, x: string, b: seq<string>)
    requires NoneOf(kind, a) && kind(x)
    ensures Place(kind, a + [x] + b) == |a|
  {
    var all := a + [x] + b;
    if a != [] {
      assert all[0] == a[0] && all[1..] == a[1..] + [x] + b;
      PlaceAt(kind, a[1..], x, b);
    } else {
      assert all[0] == x;
    }
  }

  /** Rewriting a file that has its one line of the kind just exchanges that line. */
  lemma RewrittenAt(kind: Kind, a: seq<string>, x: string, b: seq<string>, y: string)
    requires NoneOf(kind, a) && kind(x) && NoneOf(kind, b)
    ensures Rewritten(kind, a + [x] + b, y) == a + [y] + b
  {
    var all := a + [x] + b;
    PlaceAt(kind, a, x, b);
    assert all[..|a|] == a && all[|a|..] == [x] + b;
    assert ([x] + b)[1..] == b;
    OthersOfNone(kind, b);
  }

  /** No line of another kind is lost, added or moved. */
  lemma RewrittenKeepsOthers(kind: Kind, lines: seq<string>, x: string)
    requires kind(x)
    ensures Others(kind, Rewritten(kind, lines, x)) == Others(kind, lines)
  {
    var k := Place(kind, lines);
    var a, o := lines[..k], Others(kind, lines[k..]);
    OthersAppend(kind, a + [x], o);
    OthersAppend(kind, a, [x]);
    assert Others(kind, [x]) == [] by { assert [x][1..] == []; }
    OthersIsNoneOf(kind, lines[k..]);
    OthersOfNone(kind, o);
    BeforePlace(kind, lines);
    OthersOfNone(kind, a);
    OthersFromPlace(kind, lines);
  }

  lemma {:induction false} OthersDropBlank(kind: Kind, lines: seq<string>)
    requires !kind("")
    ensures DropBlank(Others(kind, DropBlank(lines))) == DropBlank(Others(kind, lines))
  {
    if lines != [] && lines[|lines| - 1] == "" {
      var init := lines[..|lines| - 1];
      assert lines == init + [""];
      OthersAppend(kind, init, [""]);
      assert Others(kind, [""]) == [""] by { assert [""][1..] == []; }
      var o := Others(kind, init);
      assert (o + [""])[..|o|] == o;
      OthersDropBlank(kind, init);
    }
  }

  // ---- Loading ----

  ghost predicate AllFit(fits: string -> bool, lines: seq<string>) {
    forall i :: 0 <= i < |lines| ==> fits(lines[i])
  }

  lemma {:induction false} LoadAppend(read: Reading, fits: string -> bool, m: Settings, a: seq<string>, b: seq<string>)
    ensures LoadLines(read, fits, m, a + b)
         == if AllFit(fits, a) then LoadLines(read, fits, LoadLines(read, fits, m, a), b) else LoadLines(read, fits, m, a)
    decreases |a|
  {
    if a == [] {
      assert a + b == b;
    } else {
      assert (a + b)[0] == a[0] && (a + b)[1..] == a[1..] + b;
      assert AllFit(fits, a) <==> fits(a[0]) && AllFit(fits, a[1..]) by {
        assert forall i :: 0 < i < |a| ==> a[i] == a[1..][i - 1];
      }
      if fits(a[0]) {
        LoadAppend(read, fits, Put(m, read(a[0])), a[1..], b);
      }
    }
  }

  /** Trailing blank lines say nothing. */
  lemma {:induction false} LoadDropBlank(read: Reading, fits: string -> bool, lines: seq<string>)
    requires read("").None?
    ensures LoadLines(read, fits, map[], DropBlank(lines)) == LoadLines(read, fits, map[], lines)
  {
    if lines != [] && lines[|lines| - 1] == "" {
      var init := lines[..|lines| - 1];
      assert lines == init + [""];
      LoadAppend(read, fits, map[], init, [""]);
      assert forall m :: LoadLines(read, fits, m, [""]) == m;
      LoadDropBlank(read, fits, init);
    }
  }

  /** The lines of the kind are exactly those that set KEY. */
  ghost predicate Agree(read: Reading, kind: Kind) {
    forall x :: kind(x) <==> read(x).Some? && read(x).value.0 == KEY
  }

  lemma {:induction false} OthersLeaveKey(read: Reading, fits: string -> bool, kind: Kind, m: Settings, lines: seq<string>, v: string)
    requires Agree(read, kind) && NoneOf(kind, lines)
    ensures LoadLines(read, fits, m[KEY := v], lines) == LoadLines(read, fits, m, lines)[KEY := v]
    ensures KEY in LoadLines(read, fits, m, lines) <==> KEY in m
    decreases |lines|
  {
    if lines != [] && fits(lines[0]) {
      var m' := Put(m, read(lines[0]));
      assert Put(m[KEY := v], read(lines[0])) == m'[KEY := v];
      OthersLeaveKey(read, fits, kind, m', lines[1..], v);
    }
  }

  /** The new line is read: nothing before it stops the scanner, and it fits itself. */
  ghost predicate Reached(fits: string -> bool, kind: Kind, lines: seq<string>, x: string) {
    AllFit(fits, lines[..Place(kind, lines)]) && fits(x)
  }

  /** What the rewritten lines load as: the other lines, and the new value exactly if it is reached. */
  lemma RewrittenLoads(read: Reading, fits: string -> bool, kind: Kind, lines: seq<string>, x: string, v: string)
    requires Agree(read, kind) && read(x) == Some((KEY, v))
    ensures var after, rest := LoadLines(read, fits, map[], Rewritten(kind, lines, x)),
                              LoadLines(read, fits, map[], Others(kind, lines));
            && (Reached(fits, kind, lines, x) ==> after == rest[KEY := v])
            && (!Reached(fits, kind, lines, x) ==> KEY !in after)
  {
    var k := Place(kind, lines);
    var a, o := lines[..k], Others(kind, lines[k..]);
    BeforePlace(kind, lines);
    OthersIsNoneOf(kind, lines[k..]);
    OthersFromPlace(kind, lines);
    LoadAround(read, fits, kind, a, x, o, v);
  }

  lemma OthersFromPlace(kind: Kind, lines: seq<string>)
    ensures var k := Place(kind, lines); Others(kind, lines) == lines[..k] + Others(kind, lines[k..])
  {
    var k := Place(kind, lines);
    BeforePlace(kind, lines);
    OthersAppend(kind, lines[..k], lines[k..]);
    OthersOfNone(kind, lines[..k]);
    assert lines[..k] + lines[k..] == lines;
  }

  lemma LoadAround(read: Reading, fits: string -> bool, kind: Kind, a: seq<string>, x: string, b: seq<string>, v: string)
    requires Agree(read, kind) && NoneOf(kind, a) && NoneOf(kind, b) && read(x) == Some((KEY, v))
    ensures var after, rest := LoadLines(read, fits, map[], a + [x] + b), LoadLines(read, fits, map[], a + b);
            if AllFit(fits, a) && fits(x) then after == rest[KEY := v] else KEY !in after
  {
    var m := LoadLines(read, fits, map[], a);
    assert a + [x] + b == a + ([x] + b);
    LoadAppend(read, fits, map[], a, [x] + b);
    LoadAppend(read, fits, map[], a, b);
    assert ([x] + b)[1..] == b;
    OthersLeaveKey(read, fits, kind, map[], a, v);
    OthersLeaveKey(read, fits, kind, m, b, v);
  }

  /** The lines a scanner never gets to see: from the first that does not fit. */
  function Behind(fits: string -> bool, lines: seq<string>): seq<string> {
    if lines == [] || !fits(lines[0]) then lines else Behind(fits, lines[1..])
  }

  /** Without the lines of the kind, reading goes on where it used to stop. */
  lemma {:induction false} OthersLoad(read: Reading, fits: string -> bool, kind: Kind, m: Settings, lines: seq<string>)
    requires Agree(read, kind)
    ensures LoadLines(read, fits, m - {KEY}, Others(kind, lines))
         == LoadLines(read, fits, LoadLines(read, fits, m, lines) - {KEY}, Others(kind, Behind(fits, lines)))
    decreases |lines|
  {
    if lines != [] && fits(lines[0]) {
      var m' := Put(m, read(lines[0]));
      OthersLoad(read, fits, kind, m', lines[1..]);
      if kind(lines[0]) {
        assert m' - {KEY} == m - {KEY};
      } else {
        assert m' - {KEY} == Put(m - {KEY}, read(lines[0]));
        assert Others(kind, lines)[1..] == Others(kind, lines[1..]);
      }
    }
  }

  /** The lines that come into reach when those of the kind are gone change none of the settings `m`. */
  ghost predicate UncoversNothing(read: Reading, fits: string -> bool, kind: Kind, m: Settings, lines: seq<string>) {
    LoadLines(read, fits, m - {KEY}, Others(kind, Behind(fits, lines))) == m - {KEY}
  }

  /** Exactly when rewriting replaces the one setting and leaves the rest. */
  lemma RewrittenReplaces(read: Reading, fits: string -> bool, kind: Kind, lines: seq<string>, x: string, v: string)
    requires Agree(read, kind) && read(x) == Some((KEY, v))
    ensures var before := LoadLines(read, fits, map[], lines);
            LoadLines(read, fits, map[], Rewritten(kind, lines, x)) == before[KEY := v]
            <==> Reached(fits, kind, lines, x) && UncoversNothing(read, fits, kind, before, lines)
  {
    var none: Settings, before := map[], LoadLines(read, fits, map[], lines);
    var rest := LoadLines(read, fits, map[], Others(kind, lines));
    RewrittenLoads(read, fits, kind, lines, x, v);
    OthersLoad(read, fits, kind, none, lines);
    assert none - {KEY} == none;
    OthersIsNoneOf(kind, lines);
    OthersLeaveKey(read, fits, kind, none, Others(kind, lines), v);
    SameButOne(rest, before, v);
  }

  lemma SameButOne(rest: Settings, before: Settings, v: string)
    requires KEY !in rest
    ensures rest[KEY := v] == before[KEY := v] <==> rest == before - {KEY}
  {
    assert rest[KEY := v] - {KEY} == rest;
    assert before[KEY := v] - {KEY} == before - {KEY};
    assert (before - {KEY})[KEY := v] == before[KEY := v];
  }

  /** If some line is too long to read, the first such is not of the kind. */
  predicate StopsElsewhere(fits: string -> bool, kind: Kind, lines: seq<string>) {
    var hidden := Behind(fits, lines);
    hidden == [] || !kind(hidden[0])
  }

  lemma {:induction false} BehindStops(fits: string -> bool, lines: seq<string>)
    ensures var hidden := Behind(fits, lines); hidden == [] || !fits(hidden[0])
    ensures AllFit(fits, lines) ==> Behind(fits, lines) == []
  {
    if lines != [] && fits(lines[0]) {
      BehindStops(fits, lines[1..]);
    }
  }

  lemma StoppedUncoversNothing(read: Reading, fits: string -> bool, kind: Kind, m: Settings, lines: seq<string>)
    requires StopsElsewhere(fits, kind, lines)
    ensures UncoversNothing(read, fits, kind, m, lines)
  {
    BehindStops(fits, lines);
  }

  // ---- Rewriting what was rewritten ----

  /** The lines of a rewritten file. */
  function Written(kind: Kind, lines: seq<string>, x: string): seq<string> {
    DropBlank(Rewritten(kind, lines, x)) + [""]
  }

  lemma WrittenShape(kind: Kind, lines: seq<string>, x: string)
    requires x != ""
    ensures var k := Place(kind, lines);
            Written(kind, lines, x) == lines[..k] + [x] + (DropBlank(Others(kind, lines[k..])) + [""])
  {
    var k := Place(kind, lines);
    DropBlankAfter(lines[..k], x, Others(kind, lines[k..]));
  }

  lemma DropBlankPush(lines: seq<string>)
    ensures DropBlank(lines + [""]) == DropBlank(lines)
  {
    assert (lines + [""])[..|lines|] == lines;
  }

  /** Rewriting a written file exchanges its one line of the kind. */
  lemma WrittenAgain(kind: Kind, a: seq<string>, x: string, b: seq<string>, y: string)
    requires NoneOf(kind, a) && kind(x) && NoneOf(kind, b) && y != "" && !kind("")
    ensures Written(kind, a + [x] + (b + [""]), y) == a + [y] + (DropBlank(b) + [""])
  {
    RewrittenAt(kind, a, x, b + [""], y);
    DropBlankAfter(a, y, b + [""]);
    DropBlankPush(b);
  }

  lemma WrittenTwice(kind: Kind, lines: seq<string>, x: string, y: string)
    requires kind(x) && x != "" && y != "" && !kind("")
    ensures Written(kind, Written(kind, lines, x), y) == Written(kind, lines, y)
  {
    var k := Place(kind, lines);
    var o := Others(kind, lines[k..]);
    WrittenShape(kind, lines, x);
    WrittenShape(kind, lines, y);
    BeforePlace(kind, lines);
    OthersIsNoneOf(kind, lines[k..]);
    DropBlankNoneOf(kind, o);
    WrittenAgain(kind, lines[..k], x, DropBlank(o), y);
  }

  lemma {:induction false} DropBlankNoneOf(kind: Kind, lines: seq<string>)
    requires NoneOf(kind, lines)
    ensures NoneOf(kind, DropBlank(lines)) && DropBlank(DropBlank(lines)) == DropBlank(lines)
  {
    if lines != [] && lines[|lines| - 1] == "" {
      DropBlankNoneOf(kind, lines[..|lines| - 1]);
    }
  }

  lemma WrittenKeepsOthers(kind: Kind, lines: seq<string>, x: string)
    requires kind(x) && !kind("")
    ensures DropBlank(Others(kind, Written(kind, lines, x))) == DropBlank(Others(kind, lines))
  {
    var n := Rewritten(kind, lines, x);
    RewrittenKeepsOthers(kind, lines, x);
    OthersDropBlank(kind, n);
    OthersAppend(kind, DropBlank(n), [""]);
    assert Others(kind, [""]) == [""] by { assert [""][1..] == []; }
    DropBlankPush(Others(kind, DropBlank(n)));
  }

  // ---- Lines as the client reads them ----

  lemma {:induction false} TrimRightEnds(s: string)
    ensures var r := TrimRight(s); r == "" || !IsSpace(r[|r| - 1])
  {
    if s != "" && IsSpace(s[|s| - 1]) {
      TrimRightEnds(s[..|s| - 1]);
    }
  }

  lemma {:induction false} TrimLeftMap(f: char -> char, s: string)
    requires forall c :: IsSpace(f(c)) <==> IsSpace(c)
    ensures TrimLeft(MapChars(f, s)) == MapChars(f, TrimLeft(s))
  {
    if s != "" && IsSpace(s[0]) {
      assert MapChars(f, s)[1..] == MapChars(f, s[1..]);
      TrimLeftMap(f, s[1..]);
    }
  }

  lemma {:induction false} TrimRightMap(f: char -> char, s: string)
    requires forall c :: IsSpace(f(c)) <==> IsSpace(c)
    ensures TrimRight(MapChars(f, s)) == MapChars(f, TrimRight(s))
  {
    if s != "" && IsSpace(s[|s| - 1]) {
      assert MapChars(f, s)[..|s| - 1] == MapChars(f, s[..|s| - 1]);
      TrimRightMap(f, s[..|s| - 1]);
    }
  }

  lemma FoldIsLower(lower: char -> char, s: string)
    requires LowerOk(lower)
    ensures FoldsToToken(s) <==> MapChars(lower, s) == KEY
  {
    var m := MapChars(lower, s);
    if |s| == 5 {
      assert m == [lower(s[0]), lower(s[1]), lower(s[2]), lower(s[3]), lower(s[4])];
    }
  }

  /** The rewriter takes for token lines exactly the lines the parser files under "token". */
  lemma RewriterAgreesWithParser(lower: char -> char)
    requires LowerOk(lower)
    ensures Agree(Reader(lower), IsToken)
  {
    forall x ensures IsToken(x) <==> Entry(lower, x).Some? && Entry(lower, x).value.0 == KEY {
      var c := Cut(x);
      if c.Some? {
        var k := c.value.0;
        TrimLeftMap(lower, k);
        TrimRightMap(lower, TrimLeft(k));
        FoldIsLower(lower, Trim(k));
      }
    }
  }

  /** A token as the client has it: trimmed and on one line. */
  ghost predicate TokenOk(tok: string) {
    Trim(tok) == tok && OneLine(tok)
  }

  lemma LineIsTrimmed(tok: string)
    requires TokenOk(tok)
    ensures Trim(Line(tok)) == Line(tok) && IndexOf(Line(tok), '=') == 5
  {
    TrimRightEnds(TrimLeft(tok));
    var s := Line(tok);
    assert s[|s| - 1] == if tok == "" then '=' else tok[|tok| - 1];
    IndexOfFirst("token", '=', tok);
    assert s == "token" + ['='] + tok;
  }

  lemma LineCut(tok: string)
    requires TokenOk(tok)
    ensures Cut(Line(tok)) == Some((KEY, tok))
  {
    LineIsTrimmed(tok);
    assert Line(tok)[..5] == KEY && Line(tok)[6..] == tok;
  }

  lemma LineReads(lower: char -> char, tok: string)
    requires LowerOk(lower) && TokenOk(tok)
    ensures Entry(lower, Line(tok)) == Some((KEY, tok)) && IsToken(Line(tok)) && OneLine(Line(tok))
  {
    LineCut(tok);
    FoldIsLower(lower, KEY);
    assert MapChars(lower, KEY) == KEY;
    assert Trim(KEY) == KEY;
  }

  // ---- The file before and after ----

  lemma {:induction false} DropBlankOneLiners(lines: seq<string>)
    requires OneLiners(lines)
    ensures OneLiners(DropBlank(lines))
  {
    if lines != [] && lines[|lines| - 1] == "" {
      DropBlankOneLiners(lines[..|lines| - 1]);
    }
  }

  lemma RewrittenOneLiners(kind: Kind, lines: seq<string>, x: string)
    requires OneLiners(lines) && OneLine(x)
    ensures OneLiners(Rewritten(kind, lines, x))
  {
    var k, n := Place(kind, lines), Rewritten(kind, lines, x);
    OthersIsNoneOf(kind, lines[k..]);
    forall i | 0 <= i < |n| ensures OneLine(n[i]) {
      if i > k {
        assert n[i] in Others(kind, lines[k..]);
      }
    }
  }

  /** The rewritten file has the rewritten lines, and ends in exactly one line break. */
  lemma RewriteShape(text: string, tok: string)
    requires OneLine(tok)
    ensures Rewrite(text, tok) == Join(Written(IsToken, Split(text), Line(tok)))
    ensures Split(Rewrite(text, tok)) == Written(IsToken, Split(text), Line(tok))
  {
    SplitIsOneLiners(text);
    WrittenText(IsToken, Split(text), Line(tok));
  }

  lemma WrittenText(kind: Kind, lines: seq<string>, x: string)
    requires OneLiners(lines) && OneLine(x) && x != ""
    ensures TrimBreaks(Join(Rewritten(kind, lines, x))) + "\n" == Join(Written(kind, lines, x))
    ensures Split(Join(Written(kind, lines, x))) == Written(kind, lines, x)
  {
    var n := Rewritten(kind, lines, x);
    RewrittenOneLiners(kind, lines, x);
    TrimJoin(n);
    DropBlankOneLiners(n);
    WrittenShape(kind, lines, x);
    JoinPush(DropBlank(n), "");
    SplitJoin(Written(kind, lines, x));
  }

  lemma LoadRewritten(lower: char -> char, text: string, tok: string)
    requires OneLine(tok)
    ensures Load(lower, Rewrite(text, tok))
         == LoadLines(Reader(lower), Fits, map[], Rewritten(IsToken, Split(text), Line(tok)))
  {
    RewriteShape(text, tok);
    assert Reader(lower)("").None?;
    var n := Rewritten(IsToken, Split(text), Line(tok));
    LoadDropBlank(Reader(lower), Fits, n);
    LoadDropBlank(Reader(lower), Fits, DropBlank(n));
    LoadDropBlank(Reader(lower), Fits, DropBlank(n) + [""]);
    DropBlankPush(DropBlank(n));
  }

  /**
    For every file and token: the rewritten file reads as the file without its
    token lines, plus the new token exactly if the scanner gets as far as it.
   */
  lemma RewriteSetsToken(lower: char -> char, text: string, tok: string)
    requires LowerOk(lower) && TokenOk(tok)
    ensures var m, lines := Load(lower, Rewrite(text, tok)), Split(text);
            && (KEY in m && m[KEY] == tok <==> Reached(Fits, IsToken, lines, Line(tok)))
            && (KEY in m ==> m == LoadLines(Reader(lower), Fits, map[], Others(IsToken, lines))[KEY := tok])
  {
    LoadRewritten(lower, text, tok);
    RewriterAgreesWithParser(lower);
    LineReads(lower, tok);
    RewrittenLoads(Reader(lower), Fits, IsToken, Split(text), Line(tok), tok);
  }

  /**
    For every file and token, the old settings with only the token replaced:
    exactly when nothing in front of the token line is too long for the scanner,
    the new line is not either, and the lines that come into reach if the scanner
    used to stop at an old token line set nothing new.
   */
  lemma RewriteChangesOnlyToken(lower: char -> char, text: string, tok: string)
    requires LowerOk(lower) && TokenOk(tok)
    ensures Load(lower, Rewrite(text, tok)) == Load(lower, text)[KEY := tok]
        <==> && Reached(Fits, IsToken, Split(text), Line(tok))
             && UncoversNothing(Reader(lower), Fits, IsToken, Load(lower, text), Split(text))
  {
    LoadRewritten(lower, text, tok);
    RewriterAgreesWithParser(lower);
    LineReads(lower, tok);
    RewrittenReplaces(Reader(lower), Fits, IsToken, Split(text), Line(tok), tok);
  }

  /** Unless the scanner used to stop at an old token line, being reached is all it takes. */
  lemma ReachedIsEnough(lower: char -> char, text: string, tok: string)
    requires LowerOk(lower) && TokenOk(tok) && StopsElsewhere(Fits, IsToken, Split(text))
    ensures Load(lower, Rewrite(text, tok)) == Load(lower, text)[KEY := tok]
        <==> Reached(Fits, IsToken, Split(text), Line(tok))
  {
    RewriteChangesOnlyToken(lower, text, tok);
    StoppedUncoversNothing(Reader(lower), Fits, IsToken, Load(lower, text), Split(text));
  }

  /** So on every file the scanner can read to its end. */
  lemma ReadableFile(lower: char -> char, text: string, tok: string)
    requires LowerOk(lower) && TokenOk(tok)
    requires AllFit(Fits, Split(text)) && Fits(Line(tok))
    ensures Load(lower, Rewrite(text, tok)) == Load(lower, text)[KEY := tok]
  {
    BehindStops(Fits, Split(text));
    ReachedIsEnough(lower, text, tok);
  }

  /** Behind an over-long line of the kind, a setting comes into reach. */
  lemma UncoveredSetting(read: Reading, fits: string -> bool, kind: Kind, long: string, y: string)
    requires kind(long) && !fits(long) && !kind(y) && fits(y) && read(y).Some?
    ensures LoadLines(read, fits, map[], [long, y]) == map[]
    ensures !UncoversNothing(read, fits, kind, map[], [long, y])
  {
    var none: Settings := map[];
    assert [long, y][1..] == [y] && [y][1..] == [];
    assert Others(kind, [y]) == [y];
    assert Others(kind, [long, y]) == [y];
    assert none - {KEY} == none;
    assert Behind(fits, [long, y]) == [long, y];
    assert LoadLines(read, fits, none, [y]) == Put(none, read(y));
    assert read(y).value.0 in Put(none, read(y));
  }

  /**
    An old token too long for the scanner hid the settings behind it; rewriting it
    brings them back, so more than the token changes although the token is read.
   */
  lemma LongTokenHidSettings(lower: char -> char, long: string, y: string, tok: string)
    requires LowerOk(lower) && TokenOk(long) && TokenOk(tok) && |long| >= 65536 && Fits(Line(tok))
    requires OneLine(y) && Fits(y) && !IsToken(y) && Entry(lower, y).Some?
    ensures var text := Line(long) + "\n" + y;
            && Load(lower, text) == map[]
            && Reached(Fits, IsToken, Split(text), Line(tok))
            && Load(lower, Rewrite(text, tok)) != Load(lower, text)[KEY := tok]
  {
    var text, lines := Line(long) + "\n" + y, [Line(long), y];
    LineReads(lower, long);
    BytesAtLeast(Line(long));
    assert lines[1..] == [y] && Join(lines) == text;
    SplitJoin(lines);
    UncoveredSetting(Reader(lower), Fits, IsToken, Line(long), y);
    RewriteChangesOnlyToken(lower, text, tok);
    assert lines[..0] == [];
  }

  lemma TrimNothing(s: string)
    requires s != "" && !IsSpace(s[0]) && !IsSpace(s[|s| - 1])
    ensures Trim(s) == s
  {
  }

  lemma CutAt(k: string, v: string)
    requires '=' !in k && Trim(k + "=" + v) == k + "=" + v && k != "" && k[0] != '#'
    ensures Cut(k + "=" + v) == Some((k, v))
  {
    IndexOfFirst(k, '=', v);
    assert k + "=" + v == k + ['='] + v;
    assert (k + "=" + v)[..|k|] == k && (k + "=" + v)[|k| + 1..] == v;
  }

  /** The server's address, for one. */
  lemma LongTokenHidServer(lower: char -> char, long: string, tok: string)
    requires LowerOk(lower) && TokenOk(long) && TokenOk(tok) && |long| >= 65536 && Fits(Line(tok))
    ensures var text := Line(long) + "\n" + "server=a";
            Load(lower, text) == map[] && Load(lower, Rewrite(text, tok)) != map[KEY := tok]
  {
    var k, y := "server", "server" + "=" + "a";
    TrimNothing(y);
    TrimNothing(k);
    CutAt(k, "a");
    BytesAtMost(y);
    assert y == "server=a";
    LongTokenHidSettings(lower, long, y, tok);
  }

  lemma {:induction false} BytesAtMost(s: string)
    ensures Bytes(s) <= 4 * |s|
  {
    if s != "" {
      BytesAtMost(s[1..]);
    }
  }

  lemma {:induction false} BytesAtLeast(s: string)
    ensures Bytes(s) >= |s|
  {
    if s != "" {
      BytesAtLeast(s[1..]);
    }
  }

  lemma CommentLine(text: string)
    requires text != "" && forall i :: 0 <= i < |text| ==> text[i] == '#'
    ensures Split(text) == [text] && !IsToken(text)
  {
    assert '\n' !in text;
    assert Trim(text) == text;
  }

  /** A comment of 64 KiB hides whatever token is written after it. */
  lemma LongCommentHidesToken(lower: char -> char, text: string, tok: string)
    requires LowerOk(lower) && TokenOk(tok)
    requires |text| >= 65536 && forall i :: 0 <= i < |text| ==> text[i] == '#'
    ensures KEY !in Load(lower, Rewrite(text, tok))
  {
    BytesAtLeast(text);
    CommentLine(text);
    LoadRewritten(lower, text, tok);
    RewriterAgreesWithParser(lower);
    LineReads(lower, tok);
    RewrittenLoads(Reader(lower), Fits, IsToken, [text], Line(tok), tok);
    PlaceOne(IsToken, text);
    assert [text][..1][0] == text;
  }

  lemma PlaceOne(kind: Kind, x: string)
    requires !kind(x)
    ensures Place(kind, [x]) == 1
  {
    assert [x][1..] == [];
  }

  /** Every line that is not a token line stays, in order; only trailing blank lines may go or come. */
  lemma RewriteKeepsOtherLines(lower: char -> char, text: string, tok: string)
    requires LowerOk(lower) && TokenOk(tok)
    ensures DropBlank(Others(IsToken, Split(Rewrite(text, tok)))) == DropBlank(Others(IsToken, Split(text)))
  {
    LineReads(lower, tok);
    RewriteShape(text, tok);
    WrittenKeepsOthers(IsToken, Split(text), Line(tok));
  }

  /** The last token written wins, byte for byte; in particular writing one twice is writing it once. */
  lemma LastRewriteWins(lower: char -> char, text: string, first: string, tok: string)
    requires LowerOk(lower) && TokenOk(first) && TokenOk(tok)
    ensures Rewrite(Rewrite(text, first), tok) == Rewrite(text, tok)
  {
    LineReads(lower, first);
    RewriteShape(text, first);
    RewriteShape(Rewrite(text, first), tok);
    RewriteShape(text, tok);
    WrittenTwice(IsToken, Split(text), Line(first), Line(tok));
  }

  lemma {:induction false} TrimBreaksEnds(text: string)
    ensures var r := TrimBreaks(text); r == "" || r[|r| - 1] != '\n'
  {
    if text != "" && text[|text| - 1] == '\n' {
      TrimBreaksEnds(text[..|text| - 1]);
    }
  }

  /** The file ends in one line break, and not in two. */
  lemma EndsInOneBreak(text: string, tok: string)
    ensures var r := Rewrite(text, tok);
            r != "" && r[|r| - 1] == '\n' && (|r| > 1 ==> r[|r| - 2] != '\n')
  {
    TrimBreaksEnds(Join(NewLines(text, tok)));
  }

  function NewLines(text: string, tok: string): seq<string> {
    Rewritten(IsToken, Split(text), Line(tok))
  }

  // ---- What a file says ----

  lemma TrimMap(lower: char -> char, s: string)
    requires forall c :: IsSpace(lower(c)) <==> IsSpace(c)
    ensures Trim(MapChars(lower, s)) == MapChars(lower, Trim(s))
  {
    TrimLeftMap(lower, s);
    TrimRightMap(lower, TrimLeft(s));
  }

  lemma NoEquals(b: string)
    requires Blank(b)
    ensures '=' !in b
  {
    assert !IsSpace('=');
  }

  /** The text of a setting, from its key to the end of its value. */
  lemma SettingTrims(a: string, k: string, b: string, c: string, v: string, d: string)
    requires Blank(a) && Blank(b) && Blank(c) && Blank(d) && Tight(k) && k != "" && Tight(v)
    ensures Trim(a + k + b + "=" + c + v + d) == if v == "" then k + b + "=" else k + b + "=" + c + v
  {
    assert !IsSpace('=');
    if v == "" {
      assert a + k + b + "=" + c + v + d == a + (k + b + "=") + (c + d);
      TrimPad(a, k + b + "=", c + d);
    } else {
      assert a + k + b + "=" + c + v + d == a + (k + b + "=" + c + v) + d;
      TrimPad(a, k + b + "=" + c + v, d);
    }
  }

  /** What stands between the equals sign and the end of the trimmed line. */
  function ValuePart(c: string, v: string): string {
    if v == "" then "" else c + v
  }

  lemma SettingCuts(a: string, k: string, b: string, c: string, v: string, d: string)
    requires Blank(a) && Blank(b) && Blank(c) && Blank(d)
    requires Tight(k) && k != "" && k[0] != '#' && '=' !in k && Tight(v)
    ensures Cut(a + k + b + "=" + c + v + d) == Some((k + b, ValuePart(c, v)))
  {
    var line := a + k + b + "=" + c + v + d;
    SettingTrims(a, k, b, c, v, d);
    NoEquals(b);
    assert v == "" ==> k + b + "=" + "" == k + b + "=";
    assert k + b + "=" + (c + v) == k + b + "=" + c + v;
    CutSetting(k, b, ValuePart(c, v), line);
  }

  lemma ValuePartTrims(c: string, v: string)
    requires Blank(c) && Tight(v)
    ensures Trim(ValuePart(c, v)) == v
  {
    if v == "" {
      assert "" + "" + "" == "";
      TrimPad("", "", "");
    } else {
      assert c + v + "" == c + v;
      TrimPad(c, v, "");
    }
  }

  /** A line sets the key in front of its first equals sign, in small letters, to what is behind it, both trimmed. */
  lemma SettingReads(lower: char -> char, a: string, k: string, b: string, c: string, v: string, d: string)
    requires forall ch :: IsSpace(lower(ch)) <==> IsSpace(ch)
    requires Blank(a) && Blank(b) && Blank(c) && Blank(d)
    requires Tight(k) && k != "" && k[0] != '#' && '=' !in k && Tight(v)
    ensures Entry(lower, a + k + b + "=" + c + v + d) == Some((MapChars(lower, k), v))
  {
    SettingCuts(a, k, b, c, v, d);
    ValuePartTrims(c, v);
    KeyPartTrims(lower, k, b);
    EntryOfCut(lower, a + k + b + "=" + c + v + d, k + b, ValuePart(c, v));
  }

  lemma KeyPartTrims(lower: char -> char, k: string, b: string)
    requires forall ch :: IsSpace(lower(ch)) <==> IsSpace(ch)
    requires Tight(k) && Blank(b)
    ensures Trim(MapChars(lower, k + b)) == MapChars(lower, k)
  {
    TrimMap(lower, k + b);
    assert "" + k + b == k + b;
    TrimPad("", k, b);
  }

  lemma EntryOfCut(lower: char -> char, line: string, x: string, y: string)
    requires Cut(line) == Some((x, y))
    ensures Entry(lower, line) == Some((Trim(MapChars(lower, x)), Trim(y)))
  {
  }

  lemma CutSetting(k: string, b: string, rest: string, line: string)
    requires k != "" && k[0] != '#' && '=' !in k && '=' !in b && Trim(line) == k + b + "=" + rest
    ensures Cut(line) == Some((k + b, rest))
  {
    var t := Trim(line);
    IndexOfFirst(k + b, '=', rest);
    assert t == k + b + ['='] + rest;
    assert t[..|k + b|] == k + b && t[|k + b| + 1..] == rest;
  }

  predicate Sets(read: Reading, line: string, key: string) {
    read(line).Some? && read(line).value.0 == key
  }

  /** What no line sets stays as it was. */
  lemma {:induction false} LoadUnset(read: Reading, fits: string -> bool, m: Settings, lines: seq<string>, key: string)
    requires forall j :: 0 <= j < |lines| ==> !Sets(read, lines[j], key)
    ensures var r := LoadLines(read, fits, m, lines); (key in r <==> key in m) && (key in m ==> r[key] == m[key])
    decreases |lines|
  {
    if lines != [] && fits(lines[0]) {
      LoadUnset(read, fits, Put(m, read(lines[0])), lines[1..], key);
    }
  }

  /** The last line that sets a key wins. */
  lemma {:induction false} LoadLast(read: Reading, fits: string -> bool, m: Settings, lines: seq<string>, i: nat, key: string)
    requires AllFit(fits, lines) && i < |lines| && Sets(read, lines[i], key)
    requires forall j :: i < j < |lines| ==> !Sets(read, lines[j], key)
    ensures var r := LoadLines(read, fits, m, lines); key in r && r[key] == read(lines[i]).value.1
    decreases |lines|
  {
    var m' := Put(m, read(lines[0]));
    assert fits(lines[0]);
    if i == 0 {
      LoadUnset(read, fits, m', lines[1..], key);
    } else {
      assert lines[1..][i - 1] == lines[i];
      LoadLast(read, fits, m', lines[1..], i - 1, key);
    }
  }

  /** Nothing from the first line that does not fit on is read. */
  lemma LoadStops(read: Reading, fits: string -> bool, a: seq<string>, x: string, b: seq<string>)
    requires AllFit(fits, a) && !fits(x)
    ensures LoadLines(read, fits, map[], a + [x] + b) == LoadLines(read, fits, map[], a)
  {
    assert a + [x] + b == a + ([x] + b);
    LoadAppend(read, fits, map[], a, [x] + b);
  }

  /** The parser as a whole: every key of a file the scanner can read has the value of the last line that sets it. */
  lemma FileSays(lower: char -> char, text: string, i: nat, key: string)
    requires AllFit(Fits, Split(text)) && i < |Split(text)|
    requires Sets(Reader(lower), Split(text)[i], key)
    requires forall j :: i < j < |Split(text)| ==> !Sets(Reader(lower), Split(text)[j], key)
    ensures key in Load(lower, text) && Load(lower, text)[key] == Entry(lower, Split(text)[i]).value.1
  {
    LoadLast(Reader(lower), Fits, map[], Split(text), i, key);
  }
}

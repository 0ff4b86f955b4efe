/** Building an Authenticator from its option strings and files (auth.go). */
module AuthConfig {
  import opened Basics
  import opened Text
  import Token
  import opened Auth

  const ID_PREFIX := "tok_"

  predicate IsSeparator(c: char) {
    c == ',' || c == '=' || IsSpace(c)
  }

  function RunLength(s: string): (k: nat)
    ensures k <= |s| && (s != "" && !IsSeparator(s[0]) ==> k > 0)
  {
    if s == "" || IsSeparator(s[0]) then 0 else 1 + RunLength(s[1..])
  }

  /** strings.FieldsFunc on the separators. */
  function Fields(s: string): seq<string>
    decreases |s|
  {
    if s == "" then []
    else if IsSeparator(s[0]) then Fields(s[1..])
    else
      var k := RunLength(s);
      [s[..k]] + Fields(s[k..])
  }

  /** A comma, an equals sign or white space. */
  lemma AsciiSeparators(c: char)
    requires c < '\U{80}'
    ensures IsSeparator(c) <==> c in ",=\t\n\U{0B}\U{0C}\r "
  {
    AsciiSpaces(c);
  }

  lemma {:induction false} RunLengthStops(a: string, c: char, b: string)
    requires IsSeparator(c)
    ensures RunLength(a + [c] + b) == RunLength(a)
  {
    if a != "" && !IsSeparator(a[0]) {
      assert (a + [c] + b)[1..] == a[1..] + [c] + b;
      RunLengthStops(a[1..], c, b);
    }
  }

  lemma {:induction false} RunLengthWhole(a: string)
    requires forall i :: 0 <= i < |a| ==> !IsSeparator(a[i])
    ensures RunLength(a) == |a|
  {
    if a != "" {
      RunLengthWhole(a[1..]);
    }
  }

  /** A text without separators is one field. */
  lemma FieldsOfOne(a: string)
    requires a != "" && forall i :: 0 <= i < |a| ==> !IsSeparator(a[i])
    ensures Fields(a) == [a] && Fields("") == []
  {
    RunLengthWhole(a);
    assert a[..|a|] == a && a[|a|..] == "";
  }

  /** And a separator parts the fields before it from those after it: together, the fields are the runs in between. */
  lemma {:induction false} FieldsPart(a: string, c: char, b: string)
    requires IsSeparator(c)
    ensures Fields(a + [c] + b) == Fields(a) + Fields(b)
    decreases |a|
  {
    var s := a + [c] + b;
    if a == "" {
      assert s[0] == c && s[1..] == b;
    } else if IsSeparator(a[0]) {
      assert s[1..] == a[1..] + [c] + b;
      FieldsPart(a[1..], c, b);
    } else {
      var k := RunLength(a);
      RunLengthStops(a, c, b);
      assert s[..k] == a[..k] && s[k..] == a[k..] + [c] + b;
      FieldsPart(a[k..], c, b);
    }
  }

  predicate IsComment(line: string) {
    Trim(line) == "" || Trim(line)[0] == '#'
  }

  predicate IsTokenId(id: string) {
    !(Token.PREFIX <= id) && ID_PREFIX <= id
  }

  /** Blank lines and lines that begin with '#' after white space. */
  lemma CommentLines(pre: string, text: string, post: string)
    requires Blank(pre) && Tight(text) && Blank(post)
    ensures IsComment(pre + text + post) <==> text == "" || text[0] == '#'
  {
    TrimPad(pre, text, post);
  }

  /** An id begins with tok_; a pasted token, which begins with m1., is none. */
  lemma TokenIdText(id: string)
    ensures IsTokenId(id) <==> |id| >= 4 && id[0] == 't' && id[1] == 'o' && id[2] == 'k' && id[3] == '_'
  {
  }

  /** In a line of separators only, the parser reads a field that is not there. */
  predicate Readable(line: string) {
    IsComment(line) || Fields(Trim(line)) != []
  }

  /** A well-made entry: a valid name and at least one id, all of them token ids. */
  ghost predicate IsEntry(lower: char -> char, line: string) {
    var f := Fields(Trim(line));
    && !IsComment(line) && |f| >= 2 && ValidSubdomain(NormalizeSubdomain(lower, f[0]))
    && forall k :: 1 <= k < |f| ==> IsTokenId(f[k])
  }

  ghost predicate LineOk(lower: char -> char, line: string) {
    Fits(line) && (IsComment(line) || IsEntry(lower, line))
  }

  /** The first line that is not well made is one of separators only. */
  ghost predicate Crashes(lower: char -> char, lines: seq<string>) {
    exists k :: 0 <= k < |lines| && Fits(lines[k]) && !Readable(lines[k]) && forall j :: 0 <= j < k ==> LineOk(lower, lines[j])
  }

  /** The line lists `id` for `name`. */
  ghost predicate Lists(lower: char -> char, line: string, name: string, id: string) {
    var f := Fields(Trim(line));
    IsEntry(lower, line) && NormalizeSubdomain(lower, f[0]) == name && id in f[1..]
  }

  /** One of the first `n` lines lists `id` for `name`. */
  ghost predicate ListedBefore(lower: char -> char, lines: seq<string>, n: nat, name: string, id: string)
    requires n <= |lines|
  {
    exists k :: 0 <= k < n && Lists(lower, lines[k], name, id)
  }

  ghost predicate ListedIn(lower: char -> char, lines: seq<string>, name: string, id: string) {
    ListedBefore(lower, lines, |lines|, name, id)
  }

  ghost predicate Holds(m: map<string, set<string>>, name: string, id: string) {
    name in m && id in m[name]
  }

  ghost predicate NamesOk(m: map<string, set<string>>) {
    forall n :: n in m ==> ValidSubdomain(n) && m[n] != {}
  }

  /** The ids of one entry, added to those its name already has. */
  method AddEntry(ids: seq<string>, have: set<string>) returns (ok: bool, got: set<string>)
    ensures ok <==> forall k :: 0 <= k < |ids| ==> IsTokenId(ids[k])
    ensures ok ==> forall id :: id in got <==> id in have || id in ids
  {
    got := have;
    for k := 0 to |ids|
      invariant forall j :: 0 <= j < k ==> IsTokenId(ids[j])
      invariant forall id :: id in got <==> id in have || id in ids[..k]
    {
      if !IsTokenId(ids[k]) {
        return false, got;
      }
      got := got + {ids[k]};
      assert ids[..k + 1] == ids[..k] + [ids[k]];
    }
    assert ids[..|ids|] == ids;
    ok := true;
  }

  predicate NoSeparator(s: string) {
    forall i :: 0 <= i < |s| ==> !IsSeparator(s[i])
  }

  /** A name, a separator and an id list that id for that name, and nothing else. */
  lemma LineLists(lower: char -> char, name: string, c: char, id: string, n: string, i: string)
    requires LowerKeepsNames(lower) && ValidSubdomain(name) && IsSeparator(c) && IsTokenId(id) && NoSeparator(id)
    ensures Lists(lower, name + [c] + id, n, i) <==> n == name && i == id
  {
    TwoFields(name, c, id);
    ValidNameIsNormal(lower, name);
    assert [name, id][1..] == [id];
  }

  lemma TwoFields(name: string, c: char, id: string)
    requires ValidSubdomain(name) && IsSeparator(c) && id != "" && NoSeparator(id)
    ensures var line := name + [c] + id; Fields(Trim(line)) == [name, id] && !IsComment(line)
  {
    NameIsOneField(name);
    FieldsPart(name, c, id);
    FieldsOfOne(name);
    FieldsOfOne(id);
    TightLine(name, c, id);
    assert Fields(name + [c] + id) == [name, id];
  }

  lemma TightLine(name: string, c: char, id: string)
    requires name != "" && !IsSpace(name[0]) && id != "" && NoSeparator(id)
    ensures Trim(name + [c] + id) == name + [c] + id
  {
    var line := name + [c] + id;
    assert line[0] == name[0] && line[|line| - 1] == id[|id| - 1];
    assert "" + line + "" == line;
    TrimPad("", line, "");
  }

  lemma NameIsOneField(name: string)
    requires ValidSubdomain(name)
    ensures NoSeparator(name) && !IsSpace(name[0]) && name[0] != '#'
  {
  }

  /** How building a part of the configuration ends; Crashed is the index out of range of a missing field. */
  datatype Outcome<T> = Done(value: T) | Invalid | Crashed

  /** One line of parseReserved. */
  method ParseLine(lower: char -> char, line: string, into: map<string, set<string>>)
    returns (r: Outcome<map<string, set<string>>>)
    requires NamesOk(into) && Fits(line)
    ensures r.Crashed? <==> !Readable(line)
    ensures r.Done? <==> LineOk(lower, line)
    ensures r.Done? ==> NamesOk(r.value)
    ensures r.Done? ==> forall name, id :: Holds(r.value, name, id) <==> Holds(into, name, id) || Lists(lower, line, name, id)
  {
    if IsComment(line) {
      return Done(into);
    }
    var fields := Fields(Trim(line));
    if fields == [] {
      return Crashed;
    }
    var name := NormalizeSubdomain(lower, fields[0]);
    if !ValidSubdomain(name) || |fields| < 2 {
      return Invalid;
    }
    var ok, ids := AddEntry(fields[1..], if name in into then into[name] else {});
    assert ok <==> forall k :: 1 <= k < |fields| ==> IsTokenId(fields[k]) by {
      assert forall k :: 1 <= k < |fields| ==> fields[k] == fields[1..][k - 1];
      assert forall k :: 0 <= k < |fields| - 1 ==> fields[1..][k] == fields[k + 1];
    }
    if !ok {
      return Invalid;
    }
    assert fields[1] in fields[1..];
    r := Done(into[name := ids]);
  }

  /** parseReserved: exactly the listed pairs are added, or the first bad line decides how it fails. */
  method ParseReserved(lower: char -> char, lines: seq<string>, into: map<string, set<string>>)
    returns (r: Outcome<map<string, set<string>>>)
    requires NamesOk(into)
    ensures r.Crashed? <==> Crashes(lower, lines)
    ensures r.Done? <==> forall k :: 0 <= k < |lines| ==> LineOk(lower, lines[k])
    ensures r.Done? ==> NamesOk(r.value)
    ensures r.Done? ==> forall name, id :: Holds(r.value, name, id) <==> Holds(into, name, id) || ListedIn(lower, lines, name, id)
  {
    var m := into;
    for n := 0 to |lines|
      invariant NamesOk(m)
      invariant forall k :: 0 <= k < n ==> LineOk(lower, lines[k])
      invariant forall name, id :: Holds(m, name, id) <==> Holds(into, name, id) || ListedBefore(lower, lines, n, name, id)
    {
      r := Invalid;
      if Fits(lines[n]) {
        r := ParseLine(lower, lines[n], m);
      }
      if !r.Done? {
        FirstBadLine(lower, lines, n);
        return;
      }
      ListedStep(lower, lines, n);
      m := r.value;
    }
    forall k | 0 <= k < |lines| ensures Readable(lines[k]) {
      assert LineOk(lower, lines[k]);
    }
    r := Done(m);
  }

  lemma FirstBadLine(lower: char -> char, lines: seq<string>, n: nat)
    requires n < |lines| && !LineOk(lower, lines[n]) && forall k :: 0 <= k < n ==> LineOk(lower, lines[k])
    ensures Crashes(lower, lines) <==> Fits(lines[n]) && !Readable(lines[n])
  {
    forall k | 0 <= k < n ensures Readable(lines[k]) {
      assert LineOk(lower, lines[k]);
    }
  }

  /** A comma by itself crashes the server at start. */
  lemma SeparatorsCrash(lower: char -> char)
    ensures Crashes(lower, [","])
  {
    assert TrimLeft(",") == "," && TrimRight(",") == ",";
    assert Fields(",") == Fields("");
    assert Fits([","][0]) && !Readable([","][0]);
  }

  lemma ListedStep(lower: char -> char, lines: seq<string>, n: nat)
    requires n < |lines|
    ensures forall name, id :: ListedBefore(lower, lines, n + 1, name, id)
                               <==> ListedBefore(lower, lines, n, name, id) || Lists(lower, lines[n], name, id)
  {
  }

  ghost predicate RevokedIn(lines: seq<string>, id: string) {
    exists k :: 0 <= k < |lines| && !IsComment(lines[k]) && Trim(lines[k]) == id
  }

  /** An id on a line of its own is revoked, and no other. */
  lemma RevokedLine(pre: string, id: string, post: string, other: string)
    requires Blank(pre) && Tight(id) && Blank(post) && id != "" && id[0] != '#'
    ensures RevokedIn([pre + id + post], other) <==> other == id
  {
    CommentLines(pre, id, post);
    TrimPad(pre, id, post);
    assert !IsComment([pre + id + post][0]);
  }

  /** loadRevokedIDs. */
  method LoadRevoked(lines: seq<string>) returns (r: Outcome<set<string>>)
    ensures !r.Crashed? && (r.Done? <==> forall k :: 0 <= k < |lines| ==> Fits(lines[k]))
    ensures r.Done? ==> forall id :: id in r.value <==> RevokedIn(lines, id)
  {
    var ids := {};
    for n := 0 to |lines|
      invariant forall k :: 0 <= k < n ==> Fits(lines[k])
      invariant forall id :: id in ids <==> exists k :: 0 <= k < n && !IsComment(lines[k]) && Trim(lines[k]) == id
    {
      if !Fits(lines[n]) {
        return Invalid;
      }
      if !IsComment(lines[n]) {
        ids := ids + {Trim(lines[n])};
      }
    }
    r := Done(ids);
  }

  /**
    The option set, with the files read: an auth file as its JSON object, the
    others as lines, and None for a file that cannot be read or decoded. A file
    that is not configured is an empty one.
   */
  datatype Options = Options(
    tokens: seq<string>,                    // --auth-tokens, split at commas
    authFile: Option<map<string, string>>,
    signing: seq<byte>,
    revokedFile: Option<seq<string>>,
    reservedFile: Option<seq<string>>,
    reserved: seq<string>                   // --reserved, split at semicolons
  ) {
    predicate Readable() {
      authFile.Some? && revokedFile.Some? && reservedFile.Some?
    }

    /** The reserved-name entries, in the order they are read. */
    function Entries(): seq<string> {
      if reservedFile.Some? then reservedFile.value + reserved else reserved
    }
  }

  /** The static tokens of an auth file, bound to their normalized names. */
  function Bound(lower: char -> char, file: map<string, string>): map<string, string> {
    map t | t in file :: NormalizeSubdomain(lower, file[t])
  }

  /** The static tokens an auth file adds, each bound to its normalized name. */
  method AddAuthFile(lower: char -> char, file: map<string, string>) returns (ok: bool, reserved: map<string, string>)
    ensures ok <==> AuthFileOk(lower, file)
    ensures ok ==> reserved == Bound(lower, file)
  {
    reserved := map[];
    var todo := file.Keys;
    while todo != {}
      invariant todo <= file.Keys && reserved.Keys == file.Keys - todo
      invariant forall t :: t in reserved ==>
        reserved[t] == NormalizeSubdomain(lower, file[t]) && ValidSubdomain(reserved[t])
      decreases |todo|
    {
      var t :| t in todo;
      var sub := NormalizeSubdomain(lower, file[t]);
      if !ValidSubdomain(sub) {
        return false, reserved;
      }
      reserved := reserved[t := sub];
      todo := todo - {t};
    }
    assert reserved == Bound(lower, file);
    ok := true;
  }

  ghost predicate GivenIn(parts: seq<string>, t: string) {
    t != "" && exists k :: 0 <= k < |parts| && Trim(parts[k]) == t
  }

  /** A token given between commas counts without the white space around it. */
  lemma TokenGiven(pre: string, tok: string, post: string, other: string)
    requires Blank(pre) && Tight(tok) && Blank(post)
    ensures GivenIn([pre + tok + post], other) <==> other == tok && tok != ""
  {
    TrimPad(pre, tok, post);
    assert Trim([pre + tok + post][0]) == tok;
  }

  method TrimmedTokens(parts: seq<string>) returns (r: set<string>)
    ensures forall t :: t in r <==> GivenIn(parts, t)
  {
    r := {};
    for k := 0 to |parts|
      invariant forall t :: t in r <==> t != "" && exists j :: 0 <= j < k && Trim(parts[j]) == t
    {
      if Trim(parts[k]) != "" {
        r := r + {Trim(parts[k])};
      }
    }
  }

  ghost predicate AuthFileOk(lower: char -> char, file: map<string, string>) {
    forall t :: t in file ==> ValidSubdomain(NormalizeSubdomain(lower, file[t]))
  }

  ghost predicate RevokedOk(lines: seq<string>) {
    forall k :: 0 <= k < |lines| ==> Fits(lines[k])
  }

  /** A static token is bound to a reserved name. */
  ghost predicate Clashes(lower: char -> char, bound: map<string, string>, entries: seq<string>) {
    exists t, id :: t in bound && ListedIn(lower, entries, bound[t], id)
  }

  /** The entries are well made, can be held, and clash with no static token. */
  ghost predicate EntriesOk(lower: char -> char, signing: seq<byte>, bound: map<string, string>, entries: seq<string>) {
    && (forall k :: 0 <= k < |entries| ==> LineOk(lower, entries[k]))
    && (signing == [] ==> forall k :: 0 <= k < |entries| ==> IsComment(entries[k]))
    && !Clashes(lower, bound, entries)
  }

  /** What the options list, and nothing else. */
  ghost predicate Holding(lower: char -> char, o: Options, a: Authenticator)
    requires o.Readable()
  {
    && a.signing == o.signing
    && (forall t :: t in a.tokens <==> GivenIn(o.tokens, t) || t in o.authFile.value)
    && (forall id :: id in a.revoked <==> RevokedIn(o.revokedFile.value, id))
    && a.reserved == Bound(lower, o.authFile.value)
    && (forall name, id :: Holds(a.reservedNames, name, id) <==> ListedIn(lower, o.Entries(), name, id))
  }

  /** The rest of NewAuthenticatorWith, once the other files have been taken in. */
  method WithEntries(lower: char -> char, base: Authenticator, entries: seq<string>) returns (r: Outcome<Authenticator>)
    requires base.reserved.Keys <= base.tokens && forall t :: t in base.reserved ==> ValidSubdomain(base.reserved[t])
    requires base.open <==> base.tokens == {} && base.signing == []
    ensures r.Crashed? <==> Crashes(lower, entries)
    ensures r.Done? <==> EntriesOk(lower, base.signing, base.reserved, entries)
    ensures r.Done? ==> WellFormed(r.value) && r.value == base.(reservedNames := r.value.reservedNames)
    ensures r.Done? ==> forall name, id :: Holds(r.value.reservedNames, name, id) <==> ListedIn(lower, entries, name, id)
  {
    var parsed := ParseReserved(lower, entries, map[]);
    if !parsed.Done? {
      return if parsed.Crashed? then Crashed else Invalid;
    }
    NotCrashed(lower, entries);
    var names := parsed.value;
    NamesListed(lower, entries, names);
    if names != map[] {
      if base.signing == [] {
        return Invalid;
      }
      if clash :| clash in base.reserved && base.reserved[clash] in names {
        return Invalid;
      }
    }
    r := Done(base.(reservedNames := names));
  }

  lemma NotCrashed(lower: char -> char, lines: seq<string>)
    requires forall k :: 0 <= k < |lines| ==> LineOk(lower, lines[k])
    ensures !Crashes(lower, lines)
  {
    forall k | 0 <= k < |lines| ensures Readable(lines[k]) {
      assert LineOk(lower, lines[k]);
    }
  }

  /** NewAuthenticatorWith: exactly when it builds, fails and crashes, and that it builds nothing inconsistent. */
  method NewAuthenticator(lower: char -> char, o: Options) returns (r: Outcome<Authenticator>)
    ensures r.Done? ==> o.Readable() && WellFormed(r.value) && Holding(lower, o, r.value)
    ensures r.Done? <==>
      && o.Readable() && AuthFileOk(lower, o.authFile.value) && RevokedOk(o.revokedFile.value)
      && EntriesOk(lower, o.signing, Bound(lower, o.authFile.value), o.Entries())
    ensures r.Crashed? <==>
      o.Readable() && AuthFileOk(lower, o.authFile.value) && RevokedOk(o.revokedFile.value) && Crashes(lower, o.Entries())
  {
    var tokens := TrimmedTokens(o.tokens);
    if o.authFile.None? {
      return Invalid;
    }
    var fine, reserved := AddAuthFile(lower, o.authFile.value);
    if !fine || o.revokedFile.None? {
      return Invalid;
    }
    var revoked := LoadRevoked(o.revokedFile.value);
    if revoked.Invalid? || o.reservedFile.None? {
      return Invalid;
    }
    var all := tokens + reserved.Keys;
    var base := Authenticator(all, reserved, map[], o.signing, revoked.value, all == {} && o.signing == []);
    r := WithEntries(lower, base, o.Entries());
  }

  /** There is a reserved name exactly when there is an entry. */
  lemma NamesListed(lower: char -> char, lines: seq<string>, m: map<string, set<string>>)
    requires NamesOk(m)
    requires forall name, id :: Holds(m, name, id) <==> ListedIn(lower, lines, name, id)
    ensures m != map[] <==> exists k :: 0 <= k < |lines| && IsEntry(lower, lines[k])
    ensures forall n :: n in m <==> exists id :: ListedIn(lower, lines, n, id)
  {
    forall n | n in m
      ensures exists id :: ListedIn(lower, lines, n, id)
    {
      var id :| id in m[n];
      assert Holds(m, n, id);
    }
    if m != map[] {
      var n :| n in m;
      var id :| ListedIn(lower, lines, n, id);
    }
    if k :| 0 <= k < |lines| && IsEntry(lower, lines[k]) {
      var f := Fields(Trim(lines[k]));
      assert f[1] in f[1..];
      assert Lists(lower, lines[k], NormalizeSubdomain(lower, f[0]), f[1]);
      assert Holds(m, NormalizeSubdomain(lower, f[0]), f[1]);
    }
    forall n, id | ListedIn(lower, lines, n, id)
      ensures n in m
    {
      assert Holds(m, n, id);
    }
  }
}

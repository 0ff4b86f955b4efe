/**
  The certificate of the TLS control listener, cached over two files that change
  under it (certfile.go). What the two files hold is a function of a disk tick;
  every look at a file happens at a tick of its own, so the files may change
  between any two looks.
 */
module CertFile {
  import opened Basics

  datatype FileState = Missing | Dir | File(mtime: int, size: int, content: seq<byte>)

  datatype CertErr = NoFile | IsDir | BadPair

  type Cert = (seq<byte>, seq<byte>)

  /** Modification time and size of each file. */
  type Stamp = seq<(int, int)>

  /** What one refresh sees: the two stats, then the two reads. */
  datatype Looks = Looks(certStat: FileState, keyStat: FileState, certRead: FileState, keyRead: FileState)

  /** tls.LoadX509KeyPair, with `matches` the judgement on two file contents. */
  function Load(matches: Cert -> bool, cert: FileState, key: FileState): Result<Cert, CertErr> {
    if !cert.File? || !key.File? then Err(NoFile)
    else if matches((cert.content, key.content)) then Ok((cert.content, key.content))
    else Err(BadPair)
  }

  function StatErr(f: FileState): CertErr {
    if f.Missing? then NoFile else IsDir
  }

  function StampOf(files: seq<FileState>): Result<Stamp, CertErr> {
    if files == [] then Ok([])
    else if !files[0].File? then Err(StatErr(files[0]))
    else Prefixed([(files[0].mtime, files[0].size)], StampOf(files[1..]))
  }

  function Prefixed(a: Stamp, r: Result<Stamp, CertErr>): (p: Result<Stamp, CertErr>)
    ensures a == [] ==> p == r
  {
    if r.Err? then r
    else
      assert a == [] ==> a + r.value == r.value;
      Ok(a + r.value)
  }

  lemma PrefixedTwice(a: Stamp, b: Stamp, r: Result<Stamp, CertErr>)
    ensures Prefixed(a, Prefixed(b, r)) == Prefixed(a + b, r)
  {
    if r.Ok? {
      assert a + (b + r.value) == a + b + r.value;
    }
  }

  datatype Cache = Cache(cert: Option<Cert>, stamp: Stamp, checked: int, lastErr: Option<CertErr>)

  function Refreshed(matches: Cert -> bool, c: Cache, force: bool, now: int, see: Looks): Cache {
    var stamp := StampOf([see.certStat, see.keyStat]);
    if stamp.Err? then c.(checked := now, lastErr := Some(stamp.error))
    else if !force && stamp.value == c.stamp && c.cert.Some? then c.(checked := now)
    else
      var loaded := Load(matches, see.certRead, see.keyRead);
      if loaded.Ok? then Cache(Some(loaded.value), stamp.value, now, None)
      else Cache(c.cert, stamp.value, now, Some(loaded.error))
  }

  predicate Due(c: Cache, interval: int, now: int) {
    c.cert.None? || now - c.checked >= interval
  }

  function Served(c: Cache): Result<Cert, Option<CertErr>> {
    if c.cert.Some? then Ok(c.cert.value) else Err(c.lastErr)
  }

  /** The cache in place, its fields updated under one lock. */
  class CertCache {
    var cert: Option<Cert>
    var stamp: Stamp
    var checked: int
    var lastErr: Option<CertErr>
    const interval: int
    const matches: Cert -> bool

    ghost function AsCache(): Cache
      reads this
    {
      Cache(cert, stamp, checked, lastErr)
    }

    /** NewCertFile: a first load, forced. */
    constructor (matches: Cert -> bool, interval: int, now: int, see: Looks)
      ensures this.matches == matches && this.interval == interval
      ensures AsCache() == Refreshed(matches, Cache(None, [], now, None), true, now, see)
    {
      this.matches := matches;
      this.interval := interval;
      cert, stamp, checked, lastErr := None, [], now, None;
      new;
      Refresh(true, now, see);
    }

    method Refresh(force: bool, now: int, see: Looks)
      modifies this
      ensures checked == now
      ensures !see.certStat.File? || !see.keyStat.File? ==>
                && cert == old(cert) && stamp == old(stamp)
                && lastErr == Some(StatErr(if see.certStat.File? then see.keyStat else see.certStat))
      ensures see.certStat.File? && see.keyStat.File? ==>
                && stamp == [(see.certStat.mtime, see.certStat.size), (see.keyStat.mtime, see.keyStat.size)]
                && if !force && stamp == old(stamp) && old(cert).Some? then cert == old(cert) && lastErr == old(lastErr)
                   else if see.certRead.File? && see.keyRead.File? && matches((see.certRead.content, see.keyRead.content))
                   then cert == Some((see.certRead.content, see.keyRead.content)) && lastErr == None
                   else cert == old(cert) && lastErr.Some?
      ensures AsCache() == Refreshed(matches, old(AsCache()), force, now, see)
    {
      checked := now;
      PairStamp(see.certStat, see.keyStat);
      var s := FileStamp([see.certStat, see.keyStat]);
      if s.Err? {
        lastErr := Some(s.error);
        return;
      }
      if !force && s.value == stamp && cert.Some? {
        return;
      }
      stamp := s.value;
      var loaded := Load(matches, see.certRead, see.keyRead);
      if loaded.Err? {
        lastErr := Some(loaded.error);
        return;
      }
      cert, lastErr := Some(loaded.value), None;
    }

    method GetCertificate(now: int, see: Looks) returns (r: Result<Cert, Option<CertErr>>)
      modifies this
      ensures AsCache() == (if old(cert).None? || now - old(checked) >= interval then
                              Refreshed(matches, old(AsCache()), false, now, see)
                            else old(AsCache()))
      ensures r == Served(AsCache())
    {
      if cert.None? || now - checked >= interval {
        Refresh(false, now, see);
      }
      r := if cert.None? then Err(lastErr) else Ok(cert.value);
    }
  }

  method FileStamp(files: seq<FileState>) returns (r: Result<Stamp, CertErr>)
    ensures r == StampOf(files)
  {
    var stamp: Stamp := [];
    assert files[0..] == files;
    for i := 0 to |files|
      invariant StampOf(files) == Prefixed(stamp, StampOf(files[i..]))
    {
      if !files[i].File? {
        return Err(StatErr(files[i]));
      }
      assert files[i..][1..] == files[i + 1..];
      PrefixedTwice(stamp, [(files[i].mtime, files[i].size)], StampOf(files[i + 1..]));
      stamp := stamp + [(files[i].mtime, files[i].size)];
    }
    assert stamp + [] == stamp;
    return Ok(stamp);
  }

  // ---- Runs over changing files ----

  datatype Disk = Disk(cert: nat -> FileState, key: nat -> FileState)

  /** A call at wall-clock time `now`, looking at the disk at four ticks in order. */
  datatype Call = Call(now: int, t1: nat, t2: nat, t3: nat, t4: nat)

  function See(d: Disk, c: Call): Looks {
    Looks(d.cert(c.t1), d.key(c.t2), d.cert(c.t3), d.key(c.t4))
  }

  /** A file that shows the same modification time and size twice has not changed in between. */
  ghost predicate Distinguishes(f: nat -> FileState) {
    forall i: nat, k: nat | i <= k && SameStat(f, i, k) :: Unchanged(f, i, k)
  }

  predicate SameStat(f: nat -> FileState, i: nat, k: nat) {
    f(i).File? && f(k).File? && f(i).mtime == f(k).mtime && f(i).size == f(k).size
  }

  ghost predicate Unchanged(f: nat -> FileState, i: nat, k: nat) {
    forall j: nat | i <= j <= k :: f(j) == f(i)
  }

  predicate Ordered(calls: seq<Call>) {
    && (forall i :: 0 <= i < |calls| ==> calls[i].t1 <= calls[i].t2 <= calls[i].t3 <= calls[i].t4)
    && (forall i, j :: 0 <= i < j < |calls| ==> calls[i].t4 <= calls[j].t1)
  }

  datatype Setup = Setup(disk: Disk, matches: Cert -> bool, interval: int)

  /** The cache after NewCertFile (the first call) and then GetCertificate at each later one. */
  function After(s: Setup, calls: seq<Call>): Cache
    requires calls != []
  {
    var last := calls[|calls| - 1];
    if |calls| == 1 then Refreshed(s.matches, Cache(None, [], last.now, None), true, last.now, See(s.disk, last))
    else
      var c := After(s, calls[..|calls| - 1]);
      if Due(c, s.interval, last.now) then Refreshed(s.matches, c, false, last.now, See(s.disk, last)) else c
  }

  /** The stamp of `c` was taken at t1, t2 of call `k`, whose load, if it succeeded, is what `c` serves. */
  ghost predicate Stamped(s: Setup, c: Cache, k: Call) {
    && StampOf([s.disk.cert(k.t1), s.disk.key(k.t2)]) == Ok(c.stamp)
    && var r := Load(s.matches, s.disk.cert(k.t3), s.disk.key(k.t4));
       r.Ok? ==> c.cert == Some(r.value)
  }

  /** What every call keeps: a cached pair belongs to some call's stamp and was read from disk; no pair means an error. */
  ghost predicate CacheInv(s: Setup, calls: seq<Call>, c: Cache) {
    && (c.cert.None? ==> c.lastErr.Some?)
    && (c.cert.Some? ==> exists i :: 0 <= i < |calls| && Stamped(s, c, calls[i]))
    && (c.cert.Some? ==>
          exists i :: 0 <= i < |calls| && Load(s.matches, s.disk.cert(calls[i].t3), s.disk.key(calls[i].t4)) == Ok(c.cert.value))
  }

  lemma RefreshKeeps(s: Setup, calls: seq<Call>, c: Cache, force: bool, k: Call)
    requires calls != [] && calls[|calls| - 1] == k
    requires |calls| > 1 ==> CacheInv(s, calls[..|calls| - 1], c)
    requires |calls| == 1 ==> c.cert.None?
    ensures CacheInv(s, calls, Refreshed(s.matches, c, force, k.now, See(s.disk, k)))
  {
    var c' := Refreshed(s.matches, c, force, k.now, See(s.disk, k));
    var init := calls[..|calls| - 1];
    if c'.cert.Some? {
      if c.cert.Some? {
        var i :| 0 <= i < |init| && Stamped(s, c, init[i]);
        assert calls[i] == init[i];
        var j :| 0 <= j < |init| && Load(s.matches, s.disk.cert(init[j].t3), s.disk.key(init[j].t4)) == Ok(c.cert.value);
        assert calls[j] == init[j];
        assert Stamped(s, c', calls[i]) || Stamped(s, c', calls[|calls| - 1]);
      } else {
        assert Stamped(s, c', calls[|calls| - 1]);
      }
    }
  }

  lemma CacheInvMore(s: Setup, calls: seq<Call>, c: Cache, k: Call)
    requires CacheInv(s, calls, c)
    ensures CacheInv(s, calls + [k], c)
  {
    if c.cert.Some? {
      var i :| 0 <= i < |calls| && Stamped(s, c, calls[i]);
      var j :| 0 <= j < |calls| && Load(s.matches, s.disk.cert(calls[j].t3), s.disk.key(calls[j].t4)) == Ok(c.cert.value);
      assert (calls + [k])[i] == calls[i] && (calls + [k])[j] == calls[j];
    }
  }

  lemma {:induction false} AfterKeeps(s: Setup, calls: seq<Call>)
    requires calls != []
    ensures CacheInv(s, calls, After(s, calls))
  {
    var k, init := calls[|calls| - 1], calls[..|calls| - 1];
    if |calls| == 1 {
      RefreshKeeps(s, calls, Cache(None, [], k.now, None), true, k);
    } else {
      AfterKeeps(s, init);
      var c := After(s, init);
      RefreshKeeps(s, calls, c, false, k);
      CacheInvMore(s, init, c, k);
      assert init + [k] == calls;
    }
  }

  /** A stamp that still matches at t1, t2 of `k` means the load at the earlier call `e` read what is there now. */
  lemma SameStampSameFiles(s: Setup, e: Call, k: Call, stamp: Stamp)
    requires Distinguishes(s.disk.cert) && Distinguishes(s.disk.key)
    requires e.t1 <= e.t2 <= e.t3 <= e.t4 <= k.t1 <= k.t2
    requires StampOf([s.disk.cert(e.t1), s.disk.key(e.t2)]) == Ok(stamp)
    requires StampOf([s.disk.cert(k.t1), s.disk.key(k.t2)]) == Ok(stamp)
    ensures s.disk.cert(e.t3) == s.disk.cert(k.t1) && s.disk.key(e.t4) == s.disk.key(k.t2)
  {
    PairStamp(s.disk.cert(e.t1), s.disk.key(e.t2));
    PairStamp(s.disk.cert(k.t1), s.disk.key(k.t2));
    assert stamp[0] == (s.disk.cert(e.t1).mtime, s.disk.cert(e.t1).size);
    assert stamp[1] == (s.disk.key(e.t2).mtime, s.disk.key(e.t2).size);
    assert SameStat(s.disk.cert, e.t1, k.t1) && SameStat(s.disk.key, e.t2, k.t2);
  }

  lemma PairStamp(a: FileState, b: FileState)
    ensures StampOf([a, b]) == if a.File? && b.File? then Ok([(a.mtime, a.size), (b.mtime, b.size)])
                               else if !a.File? then Err(StatErr(a)) else Err(StatErr(b))
  {
    assert [a, b][1..] == [b] && [b][1..] == [];
    if a.File? && b.File? {
      var x, y := (a.mtime, a.size), (b.mtime, b.size);
      assert [y] + [] == [y] && [x] + [y] == [x, y];
      assert StampOf([b]) == Prefixed([y], Ok([])) == Ok([y]);
      assert StampOf([a, b]) == Prefixed([x], Ok([y]));
    }
  }

  /** From tick `quiet` on the files stay as they are. */
  ghost predicate QuietFrom(d: Disk, quiet: nat) {
    forall t: nat | t >= quiet :: d.cert(t) == d.cert(quiet) && d.key(t) == d.key(quiet)
  }

  /** If the stamp taken by `k` matches a cached pair's, that pair is the one on disk, unless the disk has none. */
  lemma MatchedIsCurrent(s: Setup, calls: seq<Call>, c: Cache, k: Call)
    requires CacheInv(s, calls, c) && Ordered(calls + [k]) && Distinguishes(s.disk.cert) && Distinguishes(s.disk.key)
    requires c.cert.Some? && StampOf([s.disk.cert(k.t1), s.disk.key(k.t2)]) == Ok(c.stamp)
    ensures var disk := Load(s.matches, s.disk.cert(k.t1), s.disk.key(k.t2));
            disk.Ok? ==> c.cert == Some(disk.value)
  {
    var i :| 0 <= i < |calls| && Stamped(s, c, calls[i]);
    var e := calls[i];
    assert e == (calls + [k])[i] && k == (calls + [k])[|calls|];
    SameStampSameFiles(s, e, k, c.stamp);
  }

  /**
    Once the files have stopped changing, the first call that checks serves the
    pair on disk if it loads, and otherwise what was served before, however the
    files changed between earlier stamps and loads.
   */
  lemma AgreesWithDisk(s: Setup, calls: seq<Call>, k: Call, quiet: nat)
    requires calls != [] && Ordered(calls + [k]) && Distinguishes(s.disk.cert) && Distinguishes(s.disk.key)
    requires QuietFrom(s.disk, quiet) && k.t1 >= quiet
    requires After(s, calls).cert.None? || k.now - After(s, calls).checked >= s.interval
    ensures var cert, key := s.disk.cert(quiet), s.disk.key(quiet);
            After(s, calls + [k]).cert
            == if cert.File? && key.File? && s.matches((cert.content, key.content)) then Some((cert.content, key.content))
               else After(s, calls).cert
  {
    var c := After(s, calls);
    var all := calls + [k];
    assert all[..|all| - 1] == calls && all[|all| - 1] == k;
    assert k.t1 <= k.t2 <= k.t3 <= k.t4;
    PairStamp(s.disk.cert(k.t1), s.disk.key(k.t2));
    if c.cert.Some? && StampOf([s.disk.cert(k.t1), s.disk.key(k.t2)]) == Ok(c.stamp) {
      AfterKeeps(s, calls);
      MatchedIsCurrent(s, calls, c, k);
    }
  }

  lemma OrderedPrefix(a: seq<Call>, b: seq<Call>)
    requires Ordered(a + b)
    ensures Ordered(a)
  {
    assert forall i :: 0 <= i < |a| ==> a[i] == (a + b)[i];
  }

  /** And from then on every call, checking or not, serves just that. */
  lemma {:induction false} StaysAgreed(s: Setup, calls: seq<Call>, k: Call, quiet: nat, more: seq<Call>)
    requires calls != [] && Ordered(calls + [k] + more) && Distinguishes(s.disk.cert) && Distinguishes(s.disk.key)
    requires QuietFrom(s.disk, quiet) && k.t1 >= quiet
    requires After(s, calls).cert.None? || k.now - After(s, calls).checked >= s.interval
    ensures After(s, calls + [k] + more).cert == After(s, calls + [k]).cert
  {
    var some := calls + [k];
    if more == [] {
      assert some + more == some;
    } else {
      var rest, z := more[..|more| - 1], more[|more| - 1];
      var all := some + rest + [z];
      assert some + more == all && all[..|all| - 1] == some + rest && all[|all| - 1] == z;
      OrderedPrefix(some + rest, [z]);
      StaysAgreed(s, calls, k, quiet, rest);
      if Due(After(s, some + rest), s.interval, z.now) {
        OrderedPrefix(some, more);
        assert all[|calls|] == k && k.t1 <= k.t4 <= z.t1;
        AgreesWithDisk(s, calls, k, quiet);
        AgreesWithDisk(s, some + rest, z, quiet);
      }
    }
  }

  /** Once a pair is served one always is, and it was read from the two files; until then the error says why. */
  lemma {:induction false} ServedForever(s: Setup, calls: seq<Call>, more: seq<Call>)
    requires calls != []
    ensures Served(After(s, calls)).Ok? ==> Served(After(s, calls + more)).Ok?
    ensures var r := Served(After(s, calls));
            if r.Err? then r.error.Some?
            else exists i :: 0 <= i < |calls| && Load(s.matches, s.disk.cert(calls[i].t3), s.disk.key(calls[i].t4)) == Ok(r.value)
  {
    AfterKeeps(s, calls);
    if more == [] {
      assert calls + more == calls;
    } else {
      var all := calls + more;
      assert all[..|all| - 1] == calls + more[..|more| - 1];
      ServedForever(s, calls, more[..|more| - 1]);
    }
  }

  // ---- When it looks, and what it reports ----

  /** A call within the interval, with a pair cached, looks at nothing and changes nothing. */
  lemma NoLookWithinInterval(s: Setup, calls: seq<Call>, k: Call)
    requires calls != [] && After(s, calls).cert.Some? && k.now - After(s, calls).checked < s.interval
    ensures After(s, calls + [k]) == After(s, calls)
  {
    assert (calls + [k])[..|calls|] == calls;
  }

  /** Call `i` is the first, or finds no pair or one checked at least an interval ago. */
  ghost predicate LooksAt(s: Setup, calls: seq<Call>, i: nat)
    requires i < |calls|
  {
    i == 0 || After(s, calls[..i]).cert.None? || calls[i].now - After(s, calls[..i]).checked >= s.interval
  }

  /** `checked` is the time of the last call that looked. */
  lemma {:induction false} CheckedIsLastLook(s: Setup, calls: seq<Call>) returns (i: nat)
    requires calls != []
    ensures i < |calls| && LooksAt(s, calls, i) && After(s, calls).checked == calls[i].now
    ensures forall j :: i < j < |calls| ==> !LooksAt(s, calls, j)
  {
    var last := |calls| - 1;
    if LooksAt(s, calls, last) {
      i := last;
    } else {
      var init := calls[..last];
      i := CheckedIsLastLook(s, init);
      assert init[..i] == calls[..i];
      forall j | i < j < |calls| ensures !LooksAt(s, calls, j) {
        if j < last {
          assert init[..j] == calls[..j] && !LooksAt(s, init, j);
        }
      }
    }
  }

  /** With no pair to serve, the error is that of the call just made. */
  lemma ErrorIsLatest(s: Setup, calls: seq<Call>, k: Call)
    requires calls != [] && After(s, calls + [k]).cert.None?
    ensures var see := See(s.disk, k);
            After(s, calls + [k]).lastErr
            == Some(if !see.certStat.File? then (if see.certStat.Missing? then NoFile else IsDir)
                    else if !see.keyStat.File? then (if see.keyStat.Missing? then NoFile else IsDir)
                    else if !see.certRead.File? || !see.keyRead.File? then NoFile
                    else BadPair)
  {
    assert (calls + [k])[..|calls|] == calls;
    PairStamp(s.disk.cert(k.t1), s.disk.key(k.t2));
  }
}

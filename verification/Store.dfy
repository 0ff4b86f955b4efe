/** The inspector's ring buffer of captured exchanges (store.go), against a plain log. */
module Store {
  import opened Basics

  /** A captured exchange; time 0 is unset, and T is everything the store does not touch. */
  datatype Record<T> = Record(id: int, time: int, exchange: T)

  const DEFAULT_CAPACITY := 200

  /** The last `cap` records of `log`, newest first. */
  function Recent<T>(log: seq<Record<T>>, cap: nat): (r: seq<Record<T>>)
    ensures |r| == Min(|log|, cap) && forall i :: 0 <= i < |r| ==> r[i] == log[|log| - 1 - i]
  {
    seq(Min(|log|, cap), i requires 0 <= i < Min(|log|, cap) => log[|log| - 1 - i])
  }

  ghost predicate Distinct<T>(log: seq<Record<T>>) {
    forall i, j :: 0 <= i < j < |log| ==> log[i].id != log[j].id
  }

  /** The only remainders the ring takes. */
  lemma Wrap(x: nat, cap: nat)
    requires x < 2 * cap
    ensures x % cap == if x < cap then x else x - cap
  {
    if x >= cap {
      assert x == (x - cap) + cap;
      assert (x - cap) % cap == x - cap;
      assert x / cap == 1;
    }
  }

  class Store<T(0)> {
    var buf: array<Option<Record<T>>>
    const cap: nat
    var head: nat
    var n: nat
    var seqNo: nat
    ghost var log: seq<Record<T>>    // added since the last Clear, oldest first
    ghost var pending: set<int>      // ids drawn by an Add that has not stored its record yet
    ghost var spent: set<int>        // ids of every record ever stored

    ghost predicate Valid()
      reads this, buf
    {
      && buf.Length == cap > 0
      && head < cap
      && n == Min(|log|, cap)
      && (forall i :: 0 <= i < n ==> buf[Back(i)] == Some(log[|log| - 1 - i]))
      && Distinct(log)
      && (forall j :: 0 <= j < |log| ==> log[j].id in spent)
      && pending !! spent
      && (forall id :: id in pending ==> 1 <= id <= seqNo)
      && (forall id :: id in spent ==> 1 <= id <= seqNo)
    }

    /** The slot `i` steps before the last one written. */
    ghost function Back(i: nat): (k: nat)
      requires i < cap && head < cap
      reads this`head
      ensures k < cap
    {
      if i < head then head - 1 - i else head - 1 - i + cap
    }

    constructor (capacity: int)
      ensures Valid() && fresh(buf) && log == [] && pending == {} && spent == {}
      ensures cap == if capacity <= 0 then 200 else capacity
    {
      var c: nat := if capacity <= 0 then DEFAULT_CAPACITY else capacity;
      cap := c;
      buf := new Option<Record<T>>[c](_ => None);
      head, n, seqNo := 0, 0, 0;
      log, pending, spent := [], {}, {};
    }

    /** The first half of Add, outside the lock: an id nobody has had, and a time. */
    method Draw(rec: Record<T>, now: int) returns (r: Record<T>)
      requires Valid()
      modifies this
      ensures Valid() && buf == old(buf) && log == old(log) && spent == old(spent)
      ensures r.id !in old(pending + spent) && pending == old(pending) + {r.id}
      ensures r.exchange == rec.exchange && r.time == if rec.time == 0 then now else rec.time
      ensures r.id == old(seqNo) + 1 == seqNo
    {
      seqNo := seqNo + 1;
      r := rec.(id := seqNo);
      if r.time == 0 {
        r := r.(time := now);
      }
      pending := pending + {seqNo};
    }

    /** The second half, under the lock; others may have drawn, added and cleared in between. */
    method Insert(rec: Record<T>)
      requires Valid() && rec.id in pending
      modifies this, buf
      ensures Valid() && buf == old(buf) && seqNo == old(seqNo)
      ensures log == old(log) + [rec]
      ensures pending == old(pending) - {rec.id} && spent == old(spent) + {rec.id}
    {
      Wrap(head + 1, cap);
      buf[head] := Some(rec);
      head := (head + 1) % cap;
      if n < cap {
        n := n + 1;
      }
      log := log + [rec];
      pending, spent := pending - {rec.id}, spent + {rec.id};
      forall i | 0 <= i < n ensures buf[Back(i)] == Some(log[|log| - 1 - i]) {
        if i > 0 {
          assert Back(i) == old(Back(i - 1)) != old(head);
        }
      }
    }

    method Add(rec: Record<T>, now: int) returns (r: Record<T>)
      requires Valid()
      modifies this, buf
      ensures Valid() && buf == old(buf)
      ensures log == old(log) + [r] && spent == old(spent) + {r.id} && pending == old(pending)
      ensures r.id !in old(spent) && r.exchange == rec.exchange
      ensures forall id :: id in old(spent) ==> id < r.id
    {
      r := Draw(rec, now);
      Insert(r);
    }

    /** The newest records first, at most a capacity of them. */
    method List() returns (out: seq<Record<T>>)
      requires Valid()
      ensures out == Recent(log, cap)
    {
      out := [];
      for i := 0 to n
        invariant |out| == i && forall k :: 0 <= k < i ==> out[k] == log[|log| - 1 - k]
      {
        Wrap(head - 1 - i + cap, cap);
        var idx := (head - 1 - i + cap) % cap;
        assert idx == Back(i);
        out := out + [buf[idx].value];
      }
    }

    /** Finds an id exactly when the list shows it. */
    method Get(id: int) returns (r: Option<Record<T>>)
      requires Valid()
      ensures r.Some? ==> r.value in Recent(log, cap) && r.value.id == id
      ensures r.None? ==> forall x :: x in Recent(log, cap) ==> x.id != id
      ensures forall x :: x in Recent(log, cap) && x.id == id ==> r == Some(x)
    {
      for i := 0 to n
        invariant forall k :: 0 <= k < i ==> Recent(log, cap)[k].id != id
      {
        Wrap(head - 1 - i + cap, cap);
        var idx := (head - 1 - i + cap) % cap;
        assert idx == Back(i);
        assert buf[idx] == Some(Recent(log, cap)[i]);
        if buf[idx].value.id == id {
          return buf[idx];
        }
      }
      return None;
    }

    method Size() returns (k: nat)
      requires Valid()
      ensures k == |Recent(log, cap)|
    {
      k := n;
    }

    /** Forgets the records and never their ids. */
    method Clear()
      requires Valid()
      modifies this
      ensures Valid() && fresh(buf) && log == [] && spent == old(spent) && pending == old(pending)
      ensures seqNo == old(seqNo)
    {
      buf := new Option<Record<T>>[cap](_ => None);
      head, n := 0, 0;
      log := [];
    }
  }
}

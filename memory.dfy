/** The long-term memory of each user: a list of memories kept in the
    browser's storage under the user's key, grown by the facts extracted
    from what the user writes, and read back most recent first. */
module MemoryStore {
  import opened Wrappers
  import opened Types
  import opened Text
  import opened Gateway

  /** What the storage holds under a user's key: a list that reads back,
      or a value that fails to read or to parse. */
  datatype Stored = Readable(memories: seq<Memory>) | Unreadable

  /** The stored list of a user: empty when nothing is stored or the value
      does not read back. */
  function MemoriesIn(entries: map<int, Stored>, userId: int): seq<Memory> {
    if userId in entries && entries[userId].Readable? then entries[userId].memories else []
  }

  /** A memory whose detail equals `detail` ignoring letter case. */
  predicate Known(stored: seq<Memory>, detail: string) {
    exists k :: 0 <= k < |stored| && ToLower(stored[k].detail) == ToLower(detail)
  }

  /** The memories made of `candidates` that the stored list does not
      already know; the one made of the candidate at position i gets the id
      `idOf(i)` and the time `timeOf(i)`. Only the stored list is
      consulted, not the candidates admitted before. */
  function Admitted(stored: seq<Memory>, candidates: seq<Candidate>, idOf: nat -> string, timeOf: nat -> int): seq<Memory>
    decreases |candidates|
  {
    if candidates == [] then []
    else
      var n := |candidates| - 1;
      var c := candidates[n];
      Admitted(stored, candidates[..n], idOf, timeOf)
      + (if Known(stored, c.detail) then [] else [Memory(idOf(n), c.topic, c.detail, timeOf(n))])
  }

  /** The entries after storing the candidates of an exchange: the
      admitted memories appended after the user's stored ones, written only
      when something was admitted and the storage accepts the write. */
  function Remembered(entries: map<int, Stored>, userId: int, candidates: seq<Candidate>,
                      idOf: nat -> string, timeOf: nat -> int, writable: bool): map<int, Stored> {
    var before := MemoriesIn(entries, userId);
    var added := Admitted(before, candidates, idOf, timeOf);
    if |added| > 0 && writable then entries[userId := Readable(before + added)] else entries
  }

  /** Storing touches the user's own entry only; the user's list after it
      is the list before it followed by the admitted memories when the
      write happens, and unchanged otherwise; and nothing is written when
      nothing is admitted or the storage refuses the write. */
  lemma RememberedEffect(entries: map<int, Stored>, userId: int, candidates: seq<Candidate>,
                         idOf: nat -> string, timeOf: nat -> int, writable: bool)
    ensures var r := Remembered(entries, userId, candidates, idOf, timeOf, writable);
      var before := MemoriesIn(entries, userId);
      var added := Admitted(before, candidates, idOf, timeOf);
      (forall u :: u != userId ==> (u in r <==> u in entries) && (u in r ==> r[u] == entries[u]))
      && MemoriesIn(r, userId) == (if writable then before + added else before)
      && (r == entries <==> added == [] || !writable)
  {
    var before := MemoriesIn(entries, userId);
    var added := Admitted(before, candidates, idOf, timeOf);
    var r := Remembered(entries, userId, candidates, idOf, timeOf, writable);
    if added != [] && writable {
      assert r[userId] == Readable(before + added);
      assert |before + added| > |before|;
      assert r != entries;
    } else if writable {
      assert before + added == before;
    }
  }

  /** The store: one entry per user id. */
  class Store {
    var entries: map<int, Stored>

    constructor ()
      ensures entries == map[]
    {
      entries := map[];
    }

    /** The memories of a user; a missing or unreadable entry reads as no
        memories (nothing is thrown). */
    function GetMemories(userId: int): (r: seq<Memory>)
      reads this
      ensures userId !in entries || entries[userId].Unreadable? ==> r == []
      ensures userId in entries && entries[userId].Readable? ==> r == entries[userId].memories
    {
      MemoriesIn(entries, userId)
    }

    /** Stores the new facts of an exchange. `candidates` is what the
        extractor proposed; a candidate is admitted when no memory stored
        before the call has its detail (ignoring case), and the admitted
        ones are appended after the stored ones. The entry is written only
        when something was admitted and the storage accepts the write
        (`writable`); a failed write is swallowed. */
    method ProcessAndStore(userId: int, candidates: seq<Candidate>, idOf: nat -> string, timeOf: nat -> int, writable: bool)
      modifies this
      ensures entries == Remembered(old(entries), userId, candidates, idOf, timeOf, writable)
    {
      var all := GetMemories(userId);
      if |candidates| > 0 {
        var toSave: seq<Memory> := [];
        var i := 0;
        while i < |candidates|
          invariant 0 <= i <= |candidates|
          invariant toSave == Admitted(all, candidates[..i], idOf, timeOf)
          invariant entries == old(entries)
        {
          var c := candidates[i];
          assert candidates[..i + 1][..i] == candidates[..i];
          var known := AlreadyKnown(all, c.detail);
          if !known {
            toSave := toSave + [Memory(idOf(i), c.topic, c.detail, timeOf(i))];
          }
          i := i + 1;
        }
        assert candidates[..|candidates|] == candidates;
        if |toSave| > 0 && writable {
          entries := entries[userId := Readable(all + toSave)];
        }
      }
    }
  }

  /** Whether some stored memory has the detail, ignoring letter case. */
  method AlreadyKnown(stored: seq<Memory>, detail: string) returns (b: bool)
    ensures b == Known(stored, detail)
  {
    var lowered := ToLower(detail);
    var k := 0;
    while k < |stored|
      invariant 0 <= k <= |stored|
      invariant forall j :: 0 <= j < k ==> ToLower(stored[j].detail) != lowered
    {
      if ToLower(stored[k].detail) == lowered {
        return true;
      }
      k := k + 1;
    }
    return false;
  }

  /** Each admitted memory carries the topic and detail of a candidate whose
      detail the stored list does not know; there are at most as many as
      candidates. */
  lemma {:induction false} AdmittedUnknown(stored: seq<Memory>, candidates: seq<Candidate>, idOf: nat -> string, timeOf: nat -> int)
    ensures |Admitted(stored, candidates, idOf, timeOf)| <= |candidates|
    ensures forall m :: m in Admitted(stored, candidates, idOf, timeOf) ==>
      !Known(stored, m.detail) && exists i :: 0 <= i < |candidates| && candidates[i].detail == m.detail && candidates[i].topic == m.topic
    decreases |candidates|
  {
    if candidates != [] {
      var n := |candidates| - 1;
      AdmittedUnknown(stored, candidates[..n], idOf, timeOf);
      forall m | m in Admitted(stored, candidates, idOf, timeOf)
        ensures !Known(stored, m.detail) && exists i :: 0 <= i < |candidates| && candidates[i].detail == m.detail && candidates[i].topic == m.topic
      {
        if m in Admitted(stored, candidates[..n], idOf, timeOf) {
          var i :| 0 <= i < n && candidates[..n][i].detail == m.detail && candidates[..n][i].topic == m.topic;
          assert candidates[i] == candidates[..n][i];
        } else {
          assert candidates[n].detail == m.detail && candidates[n].topic == m.topic;
        }
      }
    }
  }

  /** A candidate whose detail the stored list does not know is admitted,
      even when an earlier candidate of the same batch has the same
      detail. */
  lemma {:induction false} UnknownAdmitted(stored: seq<Memory>, candidates: seq<Candidate>, idOf: nat -> string, timeOf: nat -> int, i: nat)
    requires i < |candidates| && !Known(stored, candidates[i].detail)
    ensures Memory(idOf(i), candidates[i].topic, candidates[i].detail, timeOf(i)) in Admitted(stored, candidates, idOf, timeOf)
    decreases |candidates|
  {
    var n := |candidates| - 1;
    if i < n {
      assert candidates[..n][i] == candidates[i];
      UnknownAdmitted(stored, candidates[..n], idOf, timeOf, i);
    }
  }

  /** Admitting a batch extended by one candidate admits the batch, then
      that candidate when the stored list does not know it: the order of
      the candidates is kept. */
  lemma AdmittedAppend(stored: seq<Memory>, candidates: seq<Candidate>, c: Candidate, idOf: nat -> string, timeOf: nat -> int)
    ensures Admitted(stored, candidates + [c], idOf, timeOf)
      == Admitted(stored, candidates, idOf, timeOf)
         + (if Known(stored, c.detail) then [] else [Memory(idOf(|candidates|), c.topic, c.detail, timeOf(|candidates|))])
  {
    assert (candidates + [c])[..|candidates|] == candidates;
  }

  /** A detail that differs only in letter case from a stored one is not
      admitted again. */
  lemma CaseInsensitiveDuplicate(stored: seq<Memory>, k: nat, detail: string)
    requires k < |stored| && ToLower(stored[k].detail) == ToLower(detail)
    ensures Known(stored, detail)
  {
  }

  // ---------------------------------------------------------------------
  // Reading back the most recent memories

  predicate NonIncreasing(ms: seq<Memory>) {
    forall i, j :: 0 <= i < j < |ms| ==> ms[j].timestamp <= ms[i].timestamp
  }

  /** `m` placed before the first memory that is not later than it. */
  function Insert(m: Memory, sorted: seq<Memory>): (r: seq<Memory>)
    ensures |r| == |sorted| + 1
    ensures multiset(r) == multiset(sorted) + multiset{m}
  {
    if sorted == [] || sorted[0].timestamp <= m.timestamp then [m] + sorted
    else
      assert sorted == [sorted[0]] + sorted[1..];
      [sorted[0]] + Insert(m, sorted[1..])
  }

  /** The memories ordered latest first, memories with equal times keeping
      their order (a stable sort on the time, descending). */
  function SortLatestFirst(ms: seq<Memory>): (r: seq<Memory>)
    ensures multiset(r) == multiset(ms)
  {
    if ms == [] then []
    else
      assert ms == [ms[0]] + ms[1..];
      Insert(ms[0], SortLatestFirst(ms[1..]))
  }

  lemma {:induction false} InsertKeepsOrder(m: Memory, sorted: seq<Memory>)
    requires NonIncreasing(sorted)
    ensures NonIncreasing(Insert(m, sorted))
    ensures Insert(m, sorted)[0] == if sorted == [] || sorted[0].timestamp <= m.timestamp then m else sorted[0]
    decreases |sorted|
  {
    if sorted != [] && m.timestamp < sorted[0].timestamp {
      var tail := sorted[1..];
      InsertKeepsOrder(m, tail);
      var r := Insert(m, tail);
      assert r[0].timestamp <= sorted[0].timestamp by {
        if tail != [] && m.timestamp <= tail[0].timestamp {
          assert tail[0] == sorted[1];
        }
      }
      assert Insert(m, sorted) == [sorted[0]] + r;
    }
  }

  lemma {:induction false} SortedLatestFirst(ms: seq<Memory>)
    ensures NonIncreasing(SortLatestFirst(ms))
    decreases |ms|
  {
    if ms != [] {
      SortedLatestFirst(ms[1..]);
      InsertKeepsOrder(ms[0], SortLatestFirst(ms[1..]));
    }
  }

  /** The memories whose time is `t`, in their order. */
  function WithTime(t: int, ms: seq<Memory>): seq<Memory> {
    if ms == [] then [] else (if ms[0].timestamp == t then [ms[0]] else []) + WithTime(t, ms[1..])
  }

  lemma WithTimeCons(t: int, x: Memory, rest: seq<Memory>)
    ensures WithTime(t, [x] + rest) == (if x.timestamp == t then [x] else []) + WithTime(t, rest)
  {
    assert ([x] + rest)[1..] == rest;
  }

  /** A memory later than `m` may go ahead of it without changing the
      memories of `m`'s time. */
  lemma WithTimePast(t: int, m: Memory, s0: Memory, tail: seq<Memory>, rest: seq<Memory>)
    requires m.timestamp < s0.timestamp
    requires WithTime(t, rest) == (if m.timestamp == t then [m] else []) + WithTime(t, tail)
    ensures WithTime(t, [s0] + rest) == (if m.timestamp == t then [m] else []) + WithTime(t, [s0] + tail)
  {
    WithTimeCons(t, s0, rest);
    WithTimeCons(t, s0, tail);
  }

  lemma {:induction false} InsertWithTime(t: int, m: Memory, sorted: seq<Memory>)
    ensures WithTime(t, Insert(m, sorted)) == (if m.timestamp == t then [m] else []) + WithTime(t, sorted)
    decreases |sorted|
  {
    if sorted == [] || sorted[0].timestamp <= m.timestamp {
      WithTimeCons(t, m, sorted);
    } else {
      InsertWithTime(t, m, sorted[1..]);
      WithTimePast(t, m, sorted[0], sorted[1..], Insert(m, sorted[1..]));
      assert [sorted[0]] + sorted[1..] == sorted;
    }
  }

  /** The sort is stable: memories with the same time keep their order in
      the stored list, which decides which of them are among the most
      recent when a tie crosses the limit. */
  lemma {:induction false} SortLatestFirstStable(t: int, ms: seq<Memory>)
    ensures WithTime(t, SortLatestFirst(ms)) == WithTime(t, ms)
    decreases |ms|
  {
    if ms != [] {
      SortLatestFirstStable(t, ms[1..]);
      InsertWithTime(t, ms[0], SortLatestFirst(ms[1..]));
    }
  }

  /** `Array.prototype.slice(0, limit)`: a negative limit counts from the
      end. */
  function SliceTo(ms: seq<Memory>, limit: int): (r: seq<Memory>)
    ensures r == ms[..if limit >= 0 then (if limit < |ms| then limit else |ms|) else (if |ms| + limit > 0 then |ms| + limit else 0)]
  {
    if limit >= 0 then (if limit < |ms| then ms[..limit] else ms)
    else if |ms| + limit > 0 then ms[..|ms| + limit] else []
  }

  /** The `limit` most recent memories of a user (the application asks for
      five), latest first. */
  function GetRecentMemories(entries: map<int, Stored>, userId: int, limit: int): seq<Memory> {
    SliceTo(SortLatestFirst(MemoriesIn(entries, userId)), limit)
  }

  /** At most `limit` memories, all of the user's, latest first, and no
      memory left out is later than one returned. */
  lemma RecentMemories(entries: map<int, Stored>, userId: int, limit: int)
    ensures var all := MemoriesIn(entries, userId);
      var sorted := SortLatestFirst(all);
      var r := GetRecentMemories(entries, userId, limit);
      (limit >= 0 ==> |r| == if limit < |all| then limit else |all|)
      && multiset(sorted) == multiset(all)
      && r == sorted[..|r|]
      && NonIncreasing(r)
      && (forall i, j :: 0 <= i < |r| <= j < |sorted| ==> sorted[j].timestamp <= r[i].timestamp)
  {
    var all := MemoriesIn(entries, userId);
    var sorted := SortLatestFirst(all);
    var r := GetRecentMemories(entries, userId, limit);
    SortedLatestFirst(all);
    assert |sorted| == |all| by {
      assert |multiset(sorted)| == |multiset(all)|;
    }
    assert r == SliceTo(sorted, limit);
    assert r == sorted[..|r|];
    forall i, j | 0 <= i < |r| <= j < |sorted| ensures sorted[j].timestamp <= r[i].timestamp {
      assert r[i] == sorted[i];
    }
    forall i, j | 0 <= i < j < |r| ensures r[j].timestamp <= r[i].timestamp {
      assert r[i] == sorted[i] && r[j] == sorted[j];
    }
  }

  /** A limit no smaller than the number of stored memories returns all of
      them, latest first. */
  lemma RecentAllWhenFew(entries: map<int, Stored>, userId: int, limit: int)
    requires |MemoriesIn(entries, userId)| <= limit
    ensures var r := GetRecentMemories(entries, userId, limit);
      multiset(r) == multiset(MemoriesIn(entries, userId)) && NonIncreasing(r)
  {
    var all := MemoriesIn(entries, userId);
    SortedLatestFirst(all);
    assert |SortLatestFirst(all)| == |all| by {
      assert |multiset(SortLatestFirst(all))| == |multiset(all)|;
    }
    assert GetRecentMemories(entries, userId, limit) == SortLatestFirst(all);
  }
}

/** Calls, their recency order, and which of them a limit of N evicts. */
module Calls {
  import opened Lists
  import opened Results
  import opened Texts
  import opened Tables

  /** The call a stream belongs to: its Call-ID, or the stream itself when it has none. */
  function CallKey(id: int, row: StreamRow): string {
    if NoCallId(row) then "S:" + FormatInt(id) else "C:" + row.callId.value
  }

  predicate NoCallId(row: StreamRow) {
    row.callId == None || row.callId == Some("")
  }

  /** Streams are of one call when they share a Call-ID; a stream without one is a call of its own. */
  lemma CallKeyExact(a: int, ra: StreamRow, b: int, rb: StreamRow)
    ensures CallKey(a, ra) == CallKey(b, rb) <==>
              if NoCallId(ra) || NoCallId(rb) then NoCallId(ra) && NoCallId(rb) && a == b else ra.callId == rb.callId
  {
    var ka, kb := CallKey(a, ra), CallKey(b, rb);
    assert ka[0] == (if NoCallId(ra) then 'S' else 'C') && kb[0] == (if NoCallId(rb) then 'S' else 'C');
    assert ka[2..] == (if NoCallId(ra) then FormatInt(a) else ra.callId.value);
    assert kb[2..] == (if NoCallId(rb) then FormatInt(b) else rb.callId.value);
    if NoCallId(ra) && NoCallId(rb) && ka == kb { FormatIntInjective(a, b); }
  }

  /** The call of a finished-stream row; None for a row whose stream is gone (the join drops it). */
  function KeyOf(db: Database, r: ReportRow): Option<string> {
    if r.stream.Some? && r.stream.value in db.streams then
      Some(CallKey(r.stream.value, db.streams[r.stream.value]))
    else None
  }

  function FinishedKeys(db: Database): set<string> {
    set r | r in db.statistics && KeyOf(db, r).Some? :: KeyOf(db, r).value
  }

  /** When the call last ended, over the given rows. */
  function LastEnd(db: Database, rows: seq<ReportRow>, key: string): (ts: Option<int>)
    ensures ts.Some? <==> exists r :: r in rows && KeyOf(db, r) == Some(key)
    ensures ts.Some? ==> forall r :: r in rows && KeyOf(db, r) == Some(key) ==> r.report.endMs <= ts.value
    ensures ts.Some? ==> exists r :: r in rows && KeyOf(db, r) == Some(key) && r.report.endMs == ts.value
  {
    if rows == [] then None
    else
      LastOrFront(rows);
      var front, r := LastEnd(db, rows[..|rows| - 1], key), rows[|rows| - 1];
      if KeyOf(db, r) != Some(key) then front
      else if front.None? || front.value < r.report.endMs then Some(r.report.endMs)
      else front
  }

  function LastTs(db: Database, key: string): int
    requires key in FinishedKeys(db)
  {
    LastEnd(db, db.statistics, key).value
  }

  /** Finished call `a` ended after finished call `b`; equal times are ordered by key. */
  predicate Before(db: Database, a: string, b: string) {
    && a in FinishedKeys(db) && b in FinishedKeys(db)
    && (LastTs(db, a) > LastTs(db, b) || (LastTs(db, a) == LastTs(db, b) && TextLess(b, a)))
  }

  /** The finished calls more recent than `key`. */
  function Ahead(db: Database, key: string): set<string> {
    set k | k in FinishedKeys(db) && Before(db, k, key)
  }

  /** The calls a limit of `n` evicts: those with at least `n` more recent ones. */
  function Evicted(db: Database, n: nat): set<string> {
    set k | k in FinishedKeys(db) && |Ahead(db, k)| >= n
  }

  function EvictedStreams(db: Database, n: nat): set<int> {
    set id | id in db.streams && CallKey(id, db.streams[id]) in Evicted(db, n)
  }

  function Trimmed(db: Database, n: nat): Database {
    DeleteStreams(db, EvictedStreams(db, n))
  }

  // ----- the order by recency -----

  lemma BeforeTotal(db: Database, a: string, b: string)
    requires a in FinishedKeys(db) && b in FinishedKeys(db)
    ensures a != b ==> Before(db, a, b) || Before(db, b, a)
    ensures !(Before(db, a, b) && Before(db, b, a)) && !Before(db, a, a)
  {
    TextLessTotal(a, b);
    TextLessTotal(a, a);
  }

  lemma BeforeTransitive(db: Database, a: string, b: string, c: string)
    ensures Before(db, a, b) && Before(db, b, c) ==> Before(db, a, c)
  {
    if Before(db, a, b) && Before(db, b, c) && LastTs(db, a) == LastTs(db, b) == LastTs(db, c) {
      TextLessTransitive(c, b, a);
    }
  }

  ghost predicate IsFirst(db: Database, s: set<string>, m: string) {
    m in s && forall k :: k in s && k != m ==> Before(db, m, k)
  }

  lemma {:induction false} FirstExists(db: Database, s: set<string>) returns (m: string)
    requires s <= FinishedKeys(db) && s != {}
    ensures IsFirst(db, s, m)
    decreases |s|
  {
    var x :| x in s;
    if s == {x} { return x; }
    m := FirstExists(db, s - {x});
    BeforeTotal(db, x, m);
    if Before(db, x, m) {
      forall k | k in s && k != x ensures Before(db, x, k) {
        if k != m { BeforeTransitive(db, x, m, k); }
      }
      m := x;
    }
  }

  ghost predicate Descending(db: Database, keys: seq<string>) {
    forall i, j {:trigger Before(db, keys[i], keys[j])} :: 0 <= i < j < |keys| ==> Before(db, keys[i], keys[j])
  }

  /** `keys` lists the finished calls, the most recent first: the answer of the grouping query. */
  ghost predicate IsRanking(db: Database, keys: seq<string>) {
    Elems(keys) == FinishedKeys(db) && Descending(db, keys)
  }

  lemma PrefixSize(keys: seq<string>, i: nat)
    requires i <= |keys| && NoRepeats(keys)
    ensures |Elems(keys[..i])| == i
  {
    ElemsOfDistinct(keys[..i]);
  }

  lemma DescendingDistinct(db: Database, keys: seq<string>)
    requires Descending(db, keys)
    ensures NoRepeats(keys)
  {
    forall i, j | 0 <= i < j < |keys| ensures keys[i] != keys[j] {
      assert Before(db, keys[i], keys[j]);
      BeforeTotal(db, keys[i], keys[j]);
    }
  }

  lemma PlaceOf(db: Database, keys: seq<string>, k: string) returns (i: nat)
    requires IsRanking(db, keys) && k in FinishedKeys(db)
    ensures i < |keys| && keys[i] == k
  {
    assert k in Elems(keys);
    i :| 0 <= i < |keys| && keys[i] == k;
  }

  /** Of two places in the ranking the first is ahead. */
  lemma PlacesOrdered(db: Database, keys: seq<string>, i: nat, j: nat)
    requires Descending(db, keys) && i < |keys| && j < |keys|
    ensures Before(db, keys[i], keys[j]) <==> i < j
  {
    if i < j {
      assert Before(db, keys[i], keys[j]);
    } else {
      assert j < i ==> Before(db, keys[j], keys[i]);
      if Before(db, keys[i], keys[j]) { BeforeTotal(db, keys[i], keys[j]); }
    }
  }

  lemma AheadIsListed(db: Database, keys: seq<string>, i: nat)
    requires IsRanking(db, keys) && i < |keys|
    ensures Ahead(db, keys[i]) == Elems(keys[..i])
  {
    forall k | k in Ahead(db, keys[i]) ensures k in keys[..i] {
      var j := PlaceOf(db, keys, k);
      PlacesOrdered(db, keys, j, i);
      assert keys[..i][j] == k;
    }
    forall k | k in keys[..i] ensures k in Ahead(db, keys[i]) {
      var j :| 0 <= j < i && keys[..i][j] == k;
      PlacesOrdered(db, keys, j, i);
    }
  }

  /** A call's place in the ranking is the number of calls ahead of it. */
  lemma RankIsPlace(db: Database, keys: seq<string>, i: nat)
    requires IsRanking(db, keys) && i < |keys|
    ensures keys[i] in FinishedKeys(db) && |Ahead(db, keys[i])| == i
  {
    assert keys[i] in Elems(keys);
    AheadIsListed(db, keys, i);
    DescendingDistinct(db, keys);
    PrefixSize(keys, i);
  }

  function Min(a: nat, b: nat): nat {
    if a <= b then a else b
  }

  lemma EvictedPlace(db: Database, keys: seq<string>, n: nat, i: nat)
    requires IsRanking(db, keys) && i < |keys|
    ensures keys[i] in Evicted(db, n) <==> n <= i
  {
    RankIsPlace(db, keys, i);
  }

  /** k is listed in the part of the ranking that the limit says. */
  ghost predicate TailFits(db: Database, keys: seq<string>, n: nat, k: string) {
    && (k in Evicted(db, n) <==> k in keys[Min(n, |keys|)..])
    && (k in FinishedKeys(db) && k !in Evicted(db, n) <==> k in keys[..Min(n, |keys|)])
  }

  lemma TailMember(db: Database, keys: seq<string>, n: nat, k: string)
    requires IsRanking(db, keys)
    ensures TailFits(db, keys, n, k)
  {
    var m := Min(n, |keys|);
    if k in FinishedKeys(db) {
      var i := PlaceOf(db, keys, k);
      EvictedPlace(db, keys, n, i);
      DescendingDistinct(db, keys);
      assert k in keys[..m] <==> i < m;
      assert k in keys[m..] <==> m <= i by { if m <= i { assert keys[m..][i - m] == k; } }
    } else {
      assert k !in Elems(keys);
    }
  }

  /** What a limit of `n` evicts is what the ranking lists from place `n` on. */
  lemma EvictedIsTail(db: Database, keys: seq<string>, n: nat)
    requires IsRanking(db, keys)
    ensures Evicted(db, n) == Elems(keys[Min(n, |keys|)..])
    ensures FinishedKeys(db) - Evicted(db, n) == Elems(keys[..Min(n, |keys|)])
  {
    forall k ensures TailFits(db, keys, n, k) { TailMember(db, keys, n, k); }
    forall k ensures k in Evicted(db, n) <==> k in keys[Min(n, |keys|)..] { assert TailFits(db, keys, n, k); }
    forall k ensures k in FinishedKeys(db) - Evicted(db, n) <==> k in keys[..Min(n, |keys|)] {
      assert TailFits(db, keys, n, k);
    }
  }

  lemma {:induction false} RankingExists(db: Database, s: set<string>) returns (keys: seq<string>)
    requires s <= FinishedKeys(db)
    ensures Elems(keys) == s && Descending(db, keys)
    decreases |s|
  {
    if s == {} { return []; }
    var m := FirstExists(db, s);
    var rest := RankingExists(db, s - {m});
    DescendingPrepend(db, m, rest);
    keys := [m] + rest;
    assert Elems(keys) == {m} + Elems(rest);
  }

  lemma DescendingPrepend(db: Database, m: string, keys: seq<string>)
    requires Descending(db, keys) && forall k :: k in Elems(keys) ==> Before(db, m, k)
    ensures Descending(db, [m] + keys)
  {
    var more := [m] + keys;
    forall i, j | 0 <= i < j < |more| ensures Before(db, more[i], more[j]) {
      assert keys[j - 1] in Elems(keys);
      if i > 0 { assert Before(db, keys[i - 1], keys[j - 1]); }
    }
  }

  lemma DescendingAppend(db: Database, keys: seq<string>, m: string)
    requires Descending(db, keys) && forall k :: k in Elems(keys) ==> Before(db, k, m)
    ensures Descending(db, keys + [m])
  {
    var more := keys + [m];
    forall i, j | 0 <= i < j < |more| ensures Before(db, more[i], more[j]) {
      assert keys[i] in Elems(keys);
      if j < |keys| { assert Before(db, keys[i], keys[j]); }
    }
  }

  // ----- what trimming keeps -----

  lemma DeletedKeys(db: Database, n: nat)
    ensures FinishedKeys(Trimmed(db, n)) == FinishedKeys(db) - Evicted(db, n)
  {
    var after, ids := Trimmed(db, n), EvictedStreams(db, n);
    forall k ensures k in FinishedKeys(after) <==> k in FinishedKeys(db) - Evicted(db, n) {
      if k in FinishedKeys(after) {
        var r :| r in after.statistics && KeyOf(after, r) == Some(k);
        assert KeyOf(db, r) == Some(k) && r.stream.value !in ids;
      }
      if k in FinishedKeys(db) - Evicted(db, n) {
        var r :| r in db.statistics && KeyOf(db, r) == Some(k);
        assert r.stream.value !in ids;
        assert KeyOf(after, r) == Some(k);
      }
    }
  }

  /** Trimming leaves the N most recent finished calls, or all if there are no more than N. */
  lemma TrimKeepsTheNewest(db: Database, n: nat)
    ensures var kept := FinishedKeys(Trimmed(db, n));
            && kept == FinishedKeys(db) - Evicted(db, n)
            && |kept| == Min(n, |FinishedKeys(db)|)
            && (forall a, b :: a in kept && b in Evicted(db, n) ==> Before(db, a, b))
  {
    DeletedKeys(db, n);
    var keys := RankingExists(db, FinishedKeys(db));
    EvictedIsTail(db, keys, n);
    DescendingDistinct(db, keys);
    PrefixSize(keys, Min(n, |keys|));
    ElemsOfDistinct(keys);
    HeadBeforeTail(db, keys, Min(n, |keys|));
  }

  lemma HeadBeforeTail(db: Database, keys: seq<string>, m: nat)
    requires Descending(db, keys) && m <= |keys|
    ensures forall a, b :: a in Elems(keys[..m]) && b in Elems(keys[m..]) ==> Before(db, a, b)
  {
    forall a, b | a in Elems(keys[..m]) && b in Elems(keys[m..]) ensures Before(db, a, b) {
      var i :| 0 <= i < m && keys[..m][i] == a;
      var j :| 0 <= j < |keys| - m && keys[m..][j] == b;
      assert Before(db, keys[i], keys[m + j]);
    }
  }

  /**
   Trimming removes every row of an evicted call's streams from all four tables; every other row stays, as often
   and in the order it was.
  */
  lemma TrimRemovesExactly(db: Database, n: nat)
    ensures var after, gone := Trimmed(db, n), EvictedStreams(db, n);
            && OthersRemain(db, after, gone)
            && after.sipEvents == db.sipEvents && after.callHealth == db.callHealth
               && after.alarmEvents == db.alarmEvents
            && (forall r :: r in after.intervals <==> r in db.intervals && !OfStreams(r.stream, gone))
            && (forall r :: r in after.statistics <==> r in db.statistics && !OfStreams(r.stream, gone))
            && (forall r :: r in after.audio <==> r in db.audio && r.stream !in gone)
            && (forall id :: id in after.streams ==>
                  CallKey(id, after.streams[id]) !in FinishedKeys(db)
                      || CallKey(id, after.streams[id]) in FinishedKeys(after))
  {
    DeletedKeys(db, n);
    DeleteLeavesOthers(db, EvictedStreams(db, n));
  }

  /** Trimming again evicts nothing more. */
  lemma TrimIsStable(db: Database, n: nat)
    ensures Evicted(Trimmed(db, n), n) == {} && Trimmed(Trimmed(db, n), n) == Trimmed(db, n)
  {
    var after := Trimmed(db, n);
    TrimKeepsTheNewest(db, n);
    TrimKeepsTheNewest(after, n);
    assert Evicted(after, n) <= FinishedKeys(after);
    var kept := FinishedKeys(after) - Evicted(after, n);
    assert kept <= FinishedKeys(after) && |kept| == |FinishedKeys(after)|;
    SubsetOfSameSize(kept, FinishedKeys(after));
    assert EvictedStreams(after, n) == {};
    DeleteUnrelated(after, EvictedStreams(after, n));
  }

  // ----- the queries -----

  /** The grouping query: finished calls by recency. */
  method QueryRanking(db: Database) returns (keys: seq<string>)
    ensures IsRanking(db, keys)
  {
    keys := [];
    var left := FinishedKeys(db);
    while left != {}
      invariant left <= FinishedKeys(db) && Elems(keys) == FinishedKeys(db) - left
      invariant Descending(db, keys)
      invariant AllBefore(db, Elems(keys), left)
      decreases |left|
    {
      ghost var first := FirstExists(db, left);
      assert IsFirst(db, left, first);
      var m :| m in left && forall k :: k in left && k != m ==> Before(db, m, k);
      DescendingAppend(db, keys, m);
      ElemsAppend(keys, m);
      keys := keys + [m];
      left := left - {m};
    }
  }

  /** Every call of `s` is more recent than every call of `t`. */
  ghost predicate AllBefore(db: Database, s: set<string>, t: set<string>) {
    forall k, l :: k in s && l in t ==> Before(db, k, l)
  }

  /** The streams of the given calls, in some order. */
  method QueryStreams(db: Database, keys: seq<string>) returns (ids: seq<int>)
    ensures Elems(ids) == set id | id in db.streams && CallKey(id, db.streams[id]) in keys
  {
    ids := InSomeOrder(set id | id in db.streams && CallKey(id, db.streams[id]) in keys);
  }
}

/** Domain events and the database tables they end up in. Times are Unix milliseconds. */
module Tables {
  import opened Lists
  import opened Results

  /** A stream's network identity; audio chunks may carry nothing else. */
  datatype Endpoint = Endpoint(srcIp: string, srcPort: nat, dstIp: string, dstPort: nat, ssrc: nat)

  datatype StreamId = StreamId(endpoint: Endpoint, linkId: string)

  /** The quality figures of a report, which are stored and passed on as they are. */
  datatype Quality = Quality(
    sevanaMos: Option<real>, networkMos: Option<real>, rfactor: int, jitter: real,
    codec: string, rttDelay: real, detectorReport: string)

  datatype Counters = Counters(
    rtp: nat, illegal: nat, lost: nat, durationAudio: int, amrNb: int, amrWb: int,
    dtxSid: nat, dtxCount: nat, dtxTotal: nat)

  datatype Sip = Sip(callId: string, peerA: string, peerB: string)

  /** An interval or final report. */
  datatype Report = Report(
    streamId: StreamId, startMs: int, endMs: int, startStreamMs: int,
    counters: Counters, quality: Quality, fullReport: bool, userReport: string, sip: Sip)

  datatype Audio = Audio(streamId: StreamId, wav: seq<bv8>, startMs: int, finishMs: int)

  // ----- rows -----

  datatype StreamRow = StreamRow(
    id: StreamId, callId: Option<string>, source: Option<string>, destination: Option<string>,
    createdTs: Option<int>)

  /** A row of rtpmon_intervals or rtpmon_statistics: a nullable stream_id and the report it was written from. */
  datatype ReportRow = ReportRow(stream: Option<int>, report: Report)

  /** A row of rtpmon_audio, with the endpoint its chunk came from. */
  datatype AudioRow = AudioRow(stream: int, startMs: int, endMs: int, wav: seq<bv8>, origin: Endpoint)

  /** The tables; the last three are event tables of which only the timestamps matter here. */
  datatype Database = Database(
    streams: map<int, StreamRow>,
    intervals: seq<ReportRow>,
    statistics: seq<ReportRow>,
    audio: seq<AudioRow>,
    sipEvents: seq<int>,
    callHealth: seq<int>,
    alarmEvents: seq<int>)

  // ----- deleting rows -----

  function Filter<T(!new)>(s: seq<T>, keep: T -> bool): (r: seq<T>)
    ensures forall x :: x in r <==> x in s && keep(x)
    ensures |r| <= |s|
  {
    if s == [] then []
    else
      var front := Filter(s[..|s| - 1], keep);
      if keep(s[|s| - 1]) then front + [s[|s| - 1]] else front
  }

  lemma {:induction false} FilterAll<T(!new)>(s: seq<T>, keep: T -> bool)
    requires forall x :: x in s ==> keep(x)
    ensures Filter(s, keep) == s
  {
    if s != [] {
      FilterAll(s[..|s| - 1], keep);
      assert s == s[..|s| - 1] + [s[|s| - 1]];
    }
  }

  lemma {:induction false} FilterTwice<T(!new)>(s: seq<T>, p: T -> bool, q: T -> bool, r: T -> bool)
    requires forall x :: x in s ==> (r(x) <==> p(x) && q(x))
    ensures Filter(Filter(s, p), q) == Filter(s, r)
  {
    if s != [] {
      var front, x := s[..|s| - 1], s[|s| - 1];
      FilterTwice(front, p, q, r);
      if p(x) { assert (Filter(front, p) + [x])[..|Filter(front, p)|] == Filter(front, p); }
    }
  }

  /** The positions of the members to keep, in order. */
  function Places<T(!new)>(s: seq<T>, keep: T -> bool): (ps: seq<nat>)
    ensures forall k :: 0 <= k < |ps| ==> ps[k] < |s|
  {
    if s == [] then []
    else
      var front := Places(s[..|s| - 1], keep);
      if keep(s[|s| - 1]) then front + [|s| - 1] else front
  }

  predicate Below(i: nat, j: nat) {
    i < j
  }

  /** t is what remains of s when exactly the members to keep stay: each at its place, in their order. */
  ghost predicate Remains<T(!new)>(s: seq<T>, t: seq<T>, keep: T -> bool) {
    exists ps: seq<nat> :: IsPick(s, t, ps) && forall i: nat :: i < |s| ==> (i in ps <==> keep(s[i]))
  }

  /** t lists the members of s at ascending places. */
  ghost predicate IsPick<T>(s: seq<T>, t: seq<T>, ps: seq<nat>) {
    && |ps| == |t| && (forall k :: 0 <= k < |ps| ==> ps[k] < |s| && t[k] == s[ps[k]])
    && forall k, l {:trigger Below(ps[k], ps[l])} :: 0 <= k < l < |ps| ==> Below(ps[k], ps[l])
  }

  lemma PickAppend<T>(s: seq<T>, t: seq<T>, ps: seq<nat>, x: T)
    requires IsPick(s, t, ps)
    ensures IsPick(s + [x], t, ps) && IsPick(s + [x], t + [x], ps + [|s|])
  {
    var qs := ps + [|s|];
    forall k, l | 0 <= k < l < |qs| ensures Below(qs[k], qs[l]) {
      if l < |ps| { assert Below(ps[k], ps[l]); }
    }
  }

  /** Filtering a table leaves the rows to keep, as many times as they were and in their order, and no other. */
  lemma {:induction false} FilterRemains<T(!new)>(s: seq<T>, keep: T -> bool)
    ensures IsPick(s, Filter(s, keep), Places(s, keep))
    ensures forall i: nat :: i < |s| ==> (i in Places(s, keep) <==> keep(s[i]))
    ensures Remains(s, Filter(s, keep), keep)
  {
    if s != [] {
      var front, x := s[..|s| - 1], s[|s| - 1];
      FilterRemains(front, keep);
      PickAppend(front, Filter(front, keep), Places(front, keep), x);
      FrontAndLast(s);
      PlacesAppend(front, x, Places(front, keep), keep);
    }
  }

  lemma PlacesAppend<T(!new)>(s: seq<T>, x: T, ps: seq<nat>, keep: T -> bool)
    requires forall k :: 0 <= k < |ps| ==> ps[k] < |s|
    requires forall i: nat :: i < |s| ==> (i in ps <==> keep(s[i]))
    ensures var t, qs := s + [x], if keep(x) then ps + [|s|] else ps;
            forall i: nat :: i < |t| ==> (i in qs <==> keep(t[i]))
  {
    var t, qs := s + [x], if keep(x) then ps + [|s|] else ps;
    forall i: nat | i < |t| ensures i in qs <==> keep(t[i]) {
      if i < |s| { assert t[i] == s[i]; }
    }
  }

  predicate OfStreams(stream: Option<int>, ids: set<int>) {
    stream.Some? && stream.value in ids
  }

  function WithoutReports(rows: seq<ReportRow>, ids: set<int>): seq<ReportRow> {
    Filter(rows, (r: ReportRow) => !OfStreams(r.stream, ids))
  }

  function WithoutAudio(rows: seq<AudioRow>, ids: set<int>): seq<AudioRow> {
    Filter(rows, (r: AudioRow) => r.stream !in ids)
  }

  /** The database without the given streams and everything stored for them. */
  function DeleteStreams(db: Database, ids: set<int>): Database {
    db.(streams := db.streams - ids,
        intervals := WithoutReports(db.intervals, ids),
        statistics := WithoutReports(db.statistics, ids),
        audio := WithoutAudio(db.audio, ids))
  }

  /** The given streams and their rows are gone; every other row is there, as often and in the order it was. */
  ghost predicate OthersRemain(before: Database, after: Database, ids: set<int>) {
    && after.streams == before.streams - ids
    && Remains(before.intervals, after.intervals, (r: ReportRow) => !OfStreams(r.stream, ids))
    && Remains(before.statistics, after.statistics, (r: ReportRow) => !OfStreams(r.stream, ids))
    && Remains(before.audio, after.audio, (r: AudioRow) => r.stream !in ids)
  }

  lemma DeleteLeavesOthers(db: Database, ids: set<int>)
    ensures OthersRemain(db, DeleteStreams(db, ids), ids)
  {
    FilterRemains(db.intervals, (r: ReportRow) => !OfStreams(r.stream, ids));
    FilterRemains(db.statistics, (r: ReportRow) => !OfStreams(r.stream, ids));
    FilterRemains(db.audio, (r: AudioRow) => r.stream !in ids);
  }

  /** Deleting in two steps is deleting at once. */
  lemma DeleteTwice(db: Database, a: set<int>, b: set<int>)
    ensures DeleteStreams(DeleteStreams(db, a), b) == DeleteStreams(db, a + b)
  {
    FilterTwice(db.intervals, (r: ReportRow) => !OfStreams(r.stream, a), (r: ReportRow) => !OfStreams(r.stream, b),
                (r: ReportRow) => !OfStreams(r.stream, a + b));
    FilterTwice(db.statistics, (r: ReportRow) => !OfStreams(r.stream, a), (r: ReportRow) => !OfStreams(r.stream, b),
                (r: ReportRow) => !OfStreams(r.stream, a + b));
    FilterTwice(db.audio, (r: AudioRow) => r.stream !in a, (r: AudioRow) => r.stream !in b,
                (r: AudioRow) => r.stream !in a + b);
    assert db.streams - a - b == db.streams - (a + b);
  }

  /** Deleting streams nothing is stored for changes nothing. */
  lemma DeleteUnrelated(db: Database, ids: set<int>)
    requires ids !! db.streams.Keys
    requires forall r :: r in db.intervals || r in db.statistics ==> !OfStreams(r.stream, ids)
    requires forall r :: r in db.audio ==> r.stream !in ids
    ensures DeleteStreams(db, ids) == db
  {
    FilterAll(db.intervals, (r: ReportRow) => !OfStreams(r.stream, ids));
    FilterAll(db.statistics, (r: ReportRow) => !OfStreams(r.stream, ids));
    FilterAll(db.audio, (r: AudioRow) => r.stream !in ids);
    assert db.streams - ids == db.streams;
  }

  /** Part of the answer is listed, each row once, and the rest is left. */
  ghost predicate Listing<T>(answer: set<T>, rows: seq<T>, left: set<T>) {
    left <= answer && Elems(rows) == answer - left && NoRepeats(rows)
  }

  lemma ListingNext<T>(answer: set<T>, rows: seq<T>, left: set<T>, row: T)
    requires Listing(answer, rows, left) && row in left
    ensures Listing(answer, rows + [row], left - {row})
  {
    ElemsAppend(rows, row);
    NoRepeatsAppend(rows, row);
  }

  /** The answer of a query: each row once, in some order. */
  method InSomeOrder<T(==)>(answer: set<T>) returns (rows: seq<T>)
    ensures Elems(rows) == answer && NoRepeats(rows)
  {
    rows := [];
    var left := answer;
    while left != {}
      invariant Listing(answer, rows, left)
      decreases |left|
    {
      var row :| row in left;
      ListingNext(answer, rows, left, row);
      rows := rows + [row];
      left := left - {row};
    }
  }

  const DELETE_BATCH: nat := 500

  /** Deletes streams by id in batches, child tables first. */
  method DeleteStreamsByIds(before: Database, ids: seq<int>) returns (db: Database)
    ensures db == DeleteStreams(before, Elems(ids))
  {
    db := before;
    var start := 0;
    assert Elems(ids[..0]) == {};
    DeleteUnrelated(db, Elems(ids[..0]));
    while start < |ids|
      invariant 0 <= start <= |ids|
      invariant db == DeleteStreams(before, Elems(ids[..start]))
    {
      var end := if start + DELETE_BATCH > |ids| then |ids| else start + DELETE_BATCH;
      var chunk := Elems(ids[start..end]);
      ghost var db0 := db;
      db := db.(intervals := WithoutReports(db.intervals, chunk));
      db := db.(statistics := WithoutReports(db.statistics, chunk));
      db := db.(audio := WithoutAudio(db.audio, chunk));
      db := db.(streams := db.streams - chunk);
      assert db == DeleteStreams(db0, chunk);
      DeleteTwice(before, Elems(ids[..start]), chunk);
      ElemsConcat(ids, start, end);
      start := end;
    }
    assert ids[..start] == ids;
  }

  lemma ElemsConcat(ids: seq<int>, i: nat, j: nat)
    requires i <= j <= |ids|
    ensures Elems(ids[..i]) + Elems(ids[i..j]) == Elems(ids[..j])
  {
    assert ids[..j] == ids[..i] + ids[i..j];
  }

  /** No report or audio row belongs to a stream that is not there. */
  ghost predicate NoOrphans(db: Database) {
    && (forall r :: r in db.intervals && r.stream.Some? ==> r.stream.value in db.streams)
    && (forall r :: r in db.statistics && r.stream.Some? ==> r.stream.value in db.streams)
    && (forall r :: r in db.audio ==> r.stream in db.streams)
  }
}

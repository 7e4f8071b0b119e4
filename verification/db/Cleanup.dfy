/** Expiry of old records: which streams a sweep removes, how, and what that means for the writer. */
module Cleanup {
  import opened Lists
  import opened Results
  import opened Tables
  import opened ThreeValued
  import opened Writer
  import opened WriterRuns

  // ----- the two queries -----

  /** Streams with a row that may make them expire: created before the cutoff, or a report before it. */
  function Candidates(db: Database, cutoff: int): set<int> {
    (set id | id in db.streams && (db.streams[id].createdTs.None? || db.streams[id].createdTs.value < cutoff))
    + (set r | r in db.intervals && r.stream.Some? && r.report.endMs < cutoff :: r.stream.value)
    + (set r | r in db.statistics && r.stream.Some? && r.report.endMs < cutoff :: r.stream.value)
    + (set a | a in db.audio && a.startMs < cutoff :: a.stream)
  }

  /** A report or chunk of the stream at or after the cutoff. */
  predicate Recent(db: Database, cutoff: int, id: int) {
    || (exists r :: r in db.intervals && r.stream == Some(id) && r.report.endMs >= cutoff)
    || (exists r :: r in db.statistics && r.stream == Some(id) && r.report.endMs >= cutoff)
    || (exists a :: a in db.audio && a.stream == id && a.startMs >= cutoff)
  }

  /** The streams the sweep expires. */
  function Expired(db: Database, cutoff: int): set<int> {
    set id | id in Candidates(db, cutoff) && id in db.streams && !Recent(db, cutoff, id)
  }

  function In3(x: int, s: set<Option<int>>): Bool3 {
    if Some(x) in s then Some(true) else if None in s then None else Some(false)
  }

  /** The stream ids, NULL included, of reports at or after the cutoff. */
  function RecentIds(db: Database, cutoff: int): set<Option<int>> {
    (set r | r in db.intervals && r.report.endMs >= cutoff :: r.stream)
    + (set r | r in db.statistics && r.report.endMs >= cutoff :: r.stream)
    + (set a | a in db.audio && a.startMs >= cutoff :: Some(a.stream))
  }

  function ReportedIds(db: Database): set<Option<int>> {
    (set r | r in db.intervals :: r.stream) + (set r | r in db.statistics :: r.stream)
    + (set a | a in db.audio :: Some(a.stream))
  }

  /** The query the sweep used before, with SQL's NOT IN over a set that may hold NULL. */
  function LegacyExpired(db: Database, cutoff: int): set<int> {
    set id | id in db.streams
             && Not3(In3(id, RecentIds(db, cutoff))) == Some(true)
             && Or3(Or3(In3(id, ReportedIds(db)),
                        if db.streams[id].createdTs.None? then None else Some(db.streams[id].createdTs.value < cutoff)),
                    Some(db.streams[id].createdTs.None?)) == Some(true)
  }

  lemma RecentIffListed(db: Database, cutoff: int, id: int)
    ensures Recent(db, cutoff, id) <==> Some(id) in RecentIds(db, cutoff)
  {
  }

  /** A stream that is not recent is a candidate iff it has a report or is old itself. */
  lemma CandidateIff(db: Database, cutoff: int, id: int)
    requires id in db.streams && !Recent(db, cutoff, id)
    ensures id in Candidates(db, cutoff) <==>
              || Some(id) in ReportedIds(db)
              || db.streams[id].createdTs.None?
              || db.streams[id].createdTs.value < cutoff
  {
    if Some(id) in ReportedIds(db) {
      if r :| r in db.intervals && r.stream == Some(id) { assert r.report.endMs < cutoff; }
      else if r :| r in db.statistics && r.stream == Some(id) { assert r.report.endMs < cutoff; }
      else { var a :| a in db.audio && a.stream == id; assert a.startMs < cutoff; }
    }
  }

  /** A row of a report table, and an audio row, of the stream. */
  predicate ReportOf(db: Database, r: ReportRow, id: int) {
    (r in db.intervals || r in db.statistics) && r.stream == Some(id)
  }

  predicate SoundOf(db: Database, a: AudioRow, id: int) {
    a in db.audio && a.stream == id
  }

  /**
   A stream expires exactly when everything stored for it lies before the cutoff, and it has something stored, or was
   created before the cutoff, or nobody knows when it was created.
  */
  lemma ExpiredExactly(db: Database, cutoff: int, id: int)
    ensures id in Expired(db, cutoff) <==>
              && id in db.streams
              && (forall r :: ReportOf(db, r, id) ==> r.report.endMs < cutoff)
              && (forall a :: SoundOf(db, a, id) ==> a.startMs < cutoff)
              && (|| (exists r :: ReportOf(db, r, id)) || (exists a :: SoundOf(db, a, id))
                  || db.streams[id].createdTs.None? || db.streams[id].createdTs.value < cutoff)
  {
    if id in db.streams {
      RecentExactly(db, cutoff, id);
      if !Recent(db, cutoff, id) {
        CandidateIff(db, cutoff, id);
        ReportedExactly(db, id);
      }
    }
  }

  lemma RecentExactly(db: Database, cutoff: int, id: int)
    ensures Recent(db, cutoff, id) <==>
              (exists r :: ReportOf(db, r, id) && r.report.endMs >= cutoff)
              || (exists a :: SoundOf(db, a, id) && a.startMs >= cutoff)
  {
    if r :| r in db.intervals && r.stream == Some(id) && r.report.endMs >= cutoff { assert ReportOf(db, r, id); }
    if r :| r in db.statistics && r.stream == Some(id) && r.report.endMs >= cutoff { assert ReportOf(db, r, id); }
    if a :| a in db.audio && a.stream == id && a.startMs >= cutoff { assert SoundOf(db, a, id); }
  }

  lemma ReportedExactly(db: Database, id: int)
    ensures Some(id) in ReportedIds(db) <==> (exists r :: ReportOf(db, r, id)) || exists a :: SoundOf(db, a, id)
  {
    if r :| r in db.intervals && r.stream == Some(id) { assert ReportOf(db, r, id); }
    if r :| r in db.statistics && r.stream == Some(id) { assert ReportOf(db, r, id); }
    if a :| a in db.audio && a.stream == id { assert SoundOf(db, a, id); }
  }

  /**
   The two queries agree exactly when no report at or after the cutoff has a NULL stream id, or there is
   nothing to expire; otherwise the old query expires nothing at all.
  */
  lemma QueriesAgree(db: Database, cutoff: int)
    ensures None !in RecentIds(db, cutoff) ==> LegacyExpired(db, cutoff) == Expired(db, cutoff)
    ensures None in RecentIds(db, cutoff) ==> LegacyExpired(db, cutoff) == {}
    ensures LegacyExpired(db, cutoff) == Expired(db, cutoff) <==>
              None !in RecentIds(db, cutoff) || Expired(db, cutoff) == {}
  {
    if None !in RecentIds(db, cutoff) {
      forall id | id in db.streams
        ensures id in LegacyExpired(db, cutoff) <==> id in Expired(db, cutoff)
      {
        RecentIffListed(db, cutoff, id);
        if !Recent(db, cutoff, id) { CandidateIff(db, cutoff, id); }
      }
    }
  }

  // ----- the sweep -----

  function Since(events: seq<int>, cutoff: int): seq<int> {
    Filter(events, (t: int) => t >= cutoff)
  }

  /** The database after a sweep. */
  function Sweep(db: Database, cutoff: int): Database {
    DeleteStreams(db, Expired(db, cutoff)).(
      sipEvents := Since(db.sipEvents, cutoff),
      callHealth := Since(db.callHealth, cutoff),
      alarmEvents := Since(db.alarmEvents, cutoff))
  }

  datatype SweepStats = SweepStats(streams: nat, chunks: nat, sipEvents: nat)

  const DELETE_CHUNK: nat := 100

  /** The expiry query: the expired streams in some order, each once. */
  method QueryExpired(db: Database, cutoff: int) returns (ids: seq<int>)
    ensures Elems(ids) == Expired(db, cutoff) && NoRepeats(ids)
  {
    ids := InSomeOrder(Expired(db, cutoff));
  }

  /** The number of batches `n` streams are deleted in. */
  function Chunks(n: nat): nat {
    (n + DELETE_CHUNK - 1) / DELETE_CHUNK
  }

  /** Exactly the first n of the streams are gone. */
  ghost predicate FirstGone(before: Database, db: Database, ids: seq<int>, n: nat)
    requires n <= |ids|
  {
    db == DeleteStreams(before, Elems(ids[..n]))
  }

  lemma NoneGone(before: Database, ids: seq<int>)
    ensures FirstGone(before, before, ids, 0)
  {
    assert Elems(ids[..0]) == {};
    DeleteUnrelated(before, {});
  }

  lemma NextChunk(before: Database, db: Database, next: Database, ids: seq<int>, from: nat, end: nat)
    requires from <= end <= |ids| && FirstGone(before, db, ids, from)
            && next == DeleteStreams(db, Elems(ids[from..end]))
    ensures FirstGone(before, next, ids, end)
  {
    DeleteTwice(before, Elems(ids[..from]), Elems(ids[from..end]));
    ElemsConcat(ids, from, end);
  }

  /** Which database operations of one sweep succeed: the query, each batch, and the three event deletes. */
  datatype SweepOutcome = SweepOutcome(query: bool, chunk: nat -> bool, sip: bool, health: bool, alarm: bool)

  /** How many of the three event deletes come before the first that fails. */
  function EventDeletes(o: SweepOutcome): nat {
    if !o.sip then 0 else if !o.health then 1 else if !o.alarm then 2 else 3
  }

  /** The first `deletes` of the event tables without their rows before the cutoff. */
  function EventsCut(db: Database, cutoff: int, deletes: nat): Database {
    db.(sipEvents := if deletes >= 1 then Since(db.sipEvents, cutoff) else db.sipEvents,
        callHealth := if deletes >= 2 then Since(db.callHealth, cutoff) else db.callHealth,
        alarmEvents := if deletes >= 3 then Since(db.alarmEvents, cutoff) else db.alarmEvents)
  }

  /** `count` of the expired streams are gone and `deletes` event tables are cut; everything else is there. */
  ghost predicate SweptPartly(before: Database, cutoff: int, db: Database, count: nat, deletes: nat) {
    exists gone ::
      gone <= Expired(before, cutoff) && |gone| == count
          && db == EventsCut(DeleteStreams(before, gone), cutoff, deletes)
  }

  lemma PrefixSwept(before: Database, cutoff: int, db: Database, ids: seq<int>, n: nat)
    requires Elems(ids) == Expired(before, cutoff) && NoRepeats(ids) && n <= |ids|
    requires FirstGone(before, db, ids, n)
    ensures forall deletes :: SweptPartly(before, cutoff, EventsCut(db, cutoff, deletes), n, deletes)
  {
    var gone := Elems(ids[..n]);
    ElemsOfDistinct(ids[..n]);
    forall x | x in gone ensures x in Elems(ids) {}
    assert gone <= Expired(before, cutoff);
  }

  /** How many chunks a sweep of n streams commits before the first that fails. */
  ghost predicate StopsAfter(n: nat, chunkOk: nat -> bool, chunks: nat) {
    && chunks <= Chunks(n) && (forall k :: 0 <= k < chunks ==> chunkOk(k))
    && (chunks < Chunks(n) ==> !chunkOk(chunks))
  }

  /** All n expired streams were deleted, in this many chunks. */
  predicate AllChunks(n: nat, o: SweepOutcome, chunks: nat) {
    o.query && chunks == Chunks(n)
  }

  /** How many of the n expired streams that many chunks delete. */
  function CommittedStreams(n: nat, o: SweepOutcome, chunks: nat): nat {
    if AllChunks(n, o, chunks) then n else chunks * DELETE_CHUNK
  }

  /** How many event tables are cut once that many chunks went through. */
  function CommittedDeletes(n: nat, o: SweepOutcome, chunks: nat): nat {
    if AllChunks(n, o, chunks) then EventDeletes(o) else 0
  }

  /**
   What a sweep leaves and reports: the chunks before the first that failed, the event deletes before the first
   that failed, nothing else; it succeeds iff nothing failed.
  */
  ghost predicate Swept(before: Database, cutoff: int, o: SweepOutcome, db: Database, st: SweepStats, ok: bool) {
    var n := |Expired(before, cutoff)|;
    var deletes := CommittedDeletes(n, o, st.chunks);
    && (if o.query then StopsAfter(n, o.chunk, st.chunks) else st.chunks == 0)
    && st.streams == CommittedStreams(n, o, st.chunks)
    && SweptPartly(before, cutoff, db, st.streams, deletes)
    && st.sipEvents == (if deletes >= 1 then |before.sipEvents| - |Since(before.sipEvents, cutoff)| else 0)
    && (ok <==> deletes == 3)
  }

  lemma NothingSwept(before: Database, cutoff: int, o: SweepOutcome)
    requires !o.query
    ensures Swept(before, cutoff, o, before, SweepStats(0, 0, 0), false)
  {
    DeleteUnrelated(before, {});
    assert EventsCut(DeleteStreams(before, {}), cutoff, 0) == before;
  }

  lemma StoppedAt(before: Database, cutoff: int, o: SweepOutcome, db: Database, ids: seq<int>, chunks: nat)
    requires o.query && chunks * DELETE_CHUNK < |ids| && !o.chunk(chunks) && forall k :: 0 <= k < chunks ==> o.chunk(k)
    requires Elems(ids) == Expired(before, cutoff) && NoRepeats(ids)
    requires FirstGone(before, db, ids, chunks * DELETE_CHUNK)
    ensures Swept(before, cutoff, o, db, SweepStats(chunks * DELETE_CHUNK, chunks, 0), false)
  {
    ElemsOfDistinct(ids);
    assert chunks < Chunks(|ids|);
    PrefixSwept(before, cutoff, db, ids, chunks * DELETE_CHUNK);
    assert EventsCut(db, cutoff, 0) == db;
  }

  lemma AllGone(before: Database, cutoff: int, o: SweepOutcome, db: Database, ids: seq<int>, st: SweepStats)
    requires o.query && forall k :: 0 <= k < Chunks(|ids|) ==> o.chunk(k)
    requires Elems(ids) == Expired(before, cutoff) && NoRepeats(ids) && FirstGone(before, db, ids, |ids|)
    requires st.streams == |ids| && st.chunks == Chunks(|ids|)
    requires st.sipEvents == (if o.sip then |db.sipEvents| - |Since(db.sipEvents, cutoff)| else 0)
    ensures Swept(before, cutoff, o, EventsCut(db, cutoff, EventDeletes(o)), st, EventDeletes(o) == 3)
    ensures EventDeletes(o) == 3 ==> EventsCut(db, cutoff, 3) == Sweep(before, cutoff)
  {
    ElemsOfDistinct(ids);
    PrefixSwept(before, cutoff, db, ids, |ids|);
    assert ids[..|ids|] == ids;
  }

  /**
   Deletes the expired streams, one transaction a batch, then old SIP, call-health and alarm events, each on its
   own; the sweep stops at the first failure and what was committed before it stays.
  */
  method RemoveOldRecords(before: Database, cutoff: int, o: SweepOutcome)
    returns (db: Database, st: SweepStats, ok: bool)
    ensures Swept(before, cutoff, o, db, st, ok)
    ensures ok ==> db == Sweep(before, cutoff)
  {
    db, st, ok := before, SweepStats(0, 0, 0), false;
    if !o.query {
      NothingSwept(before, cutoff, o);
      return;
    }
    var ids := QueryExpired(before, cutoff);
    var from := 0;
    NoneGone(before, ids);
    while from < |ids|
      invariant 0 <= from <= |ids|
      invariant st == SweepStats(from, Chunks(from), 0) && !ok
      invariant from < |ids| ==> from == st.chunks * DELETE_CHUNK
      invariant FirstGone(before, db, ids, from)
      invariant forall k :: 0 <= k < st.chunks ==> o.chunk(k)
    {
      var end := if from + DELETE_CHUNK < |ids| then from + DELETE_CHUNK else |ids|;
      if !o.chunk(st.chunks) {
        StoppedAt(before, cutoff, o, db, ids, st.chunks);
        return;
      }
      db := DeleteChunk(before, db, ids, from, end);
      st := SweepStats(end, st.chunks + 1, 0);
      from := end;
    }
    ghost var left := db;
    st, db, ok := DeleteEvents(st, db, cutoff, o);
    AllGone(before, cutoff, o, left, ids, st);
  }

  /** One chunk, after those before it. */
  method DeleteChunk(ghost before: Database, db: Database, ids: seq<int>, from: nat, end: nat) returns (next: Database)
    requires from <= end <= |ids| && FirstGone(before, db, ids, from)
    ensures FirstGone(before, next, ids, end)
  {
    next := DeleteStreamsByIds(db, ids[from..end]);
    NextChunk(before, db, next, ids, from, end);
  }

  /** The three event deletes; only the SIP events are counted. */
  method DeleteEvents(before: SweepStats, db0: Database, cutoff: int, o: SweepOutcome)
    returns (st: SweepStats, db: Database, ok: bool)
    ensures db == EventsCut(db0, cutoff, EventDeletes(o)) && (ok <==> EventDeletes(o) == 3)
    ensures st == before.(
              sipEvents := if o.sip then |db0.sipEvents| - |Since(db0.sipEvents, cutoff)| else before.sipEvents)
  {
    st, db, ok := before, db0, false;
    if !o.sip { return; }
    db := db.(sipEvents := Since(db.sipEvents, cutoff));
    st := st.(sipEvents := |db0.sipEvents| - |db.sipEvents|);
    if !o.health { return; }
    db := db.(callHealth := Since(db.callHealth, cutoff));
    if !o.alarm { return; }
    db := db.(alarmEvents := Since(db.alarmEvents, cutoff));
    ok := true;
  }

  // ----- what a sweep does -----

  /**
   The rows of expired streams and old events go; every other row stays, as often and in the order it was; no
   stream left is expired and no row is orphaned.
  */
  lemma SweepRemovesExactly(db: Database, cutoff: int)
    ensures var after, gone := Sweep(db, cutoff), Expired(db, cutoff);
            && OthersRemain(db, after, gone)
            && Remains(db.sipEvents, after.sipEvents, (t: int) => t >= cutoff)
            && Remains(db.callHealth, after.callHealth, (t: int) => t >= cutoff)
            && Remains(db.alarmEvents, after.alarmEvents, (t: int) => t >= cutoff)
            && (forall r :: r in after.intervals <==> r in db.intervals && !OfStreams(r.stream, gone))
            && (forall r :: r in after.statistics <==> r in db.statistics && !OfStreams(r.stream, gone))
            && (forall a :: a in after.audio <==> a in db.audio && a.stream !in gone)
            && (forall a :: a in after.audio && a.stream in db.streams && a.startMs < cutoff ==>
                  Recent(db, cutoff, a.stream))
            && (NoOrphans(db) ==> NoOrphans(after))
            && Expired(after, cutoff) == {}
  {
    DeleteLeavesOthers(db, Expired(db, cutoff));
    FilterRemains(db.sipEvents, (t: int) => t >= cutoff);
    FilterRemains(db.callHealth, (t: int) => t >= cutoff);
    FilterRemains(db.alarmEvents, (t: int) => t >= cutoff);
    SweptExpired(db, cutoff, cutoff);
  }

  lemma RecentAfterDelete(db: Database, ids: set<int>, cutoff: int, id: int)
    requires id !in ids
    ensures Recent(DeleteStreams(db, ids), cutoff, id) <==> Recent(db, cutoff, id)
  {
    var after := DeleteStreams(db, ids);
    if Recent(db, cutoff, id) {
      if r :| r in db.intervals && r.stream == Some(id) && r.report.endMs >= cutoff { assert r in after.intervals; }
      else if r :| r in db.statistics && r.stream == Some(id) && r.report.endMs >= cutoff {
        assert r in after.statistics;
      }
      else { var a :| a in db.audio && a.stream == id && a.startMs >= cutoff; assert a in after.audio; }
    }
  }

  lemma CandidateAfterDelete(db: Database, ids: set<int>, cutoff: int, id: int)
    requires id !in ids
    ensures id in Candidates(DeleteStreams(db, ids), cutoff) <==> id in Candidates(db, cutoff)
  {
    var after := DeleteStreams(db, ids);
    if r :| r in db.intervals && r.stream == Some(id) && r.report.endMs < cutoff { assert r in after.intervals; }
    if r :| r in db.statistics && r.stream == Some(id) && r.report.endMs < cutoff { assert r in after.statistics; }
    if a :| a in db.audio && a.stream == id && a.startMs < cutoff { assert a in after.audio; }
  }

  /** What expires at a cutoff also expires at any later one. */
  lemma ExpiredGrows(db: Database, c1: int, c2: int)
    requires c1 <= c2
    ensures Expired(db, c1) <= Expired(db, c2)
  {
    forall id | id in Expired(db, c1) ensures id in Expired(db, c2) {
      CandidateIff(db, c1, id);
      assert !Recent(db, c2, id);
      CandidateIff(db, c2, id);
    }
  }

  lemma SweepTwice(db: Database, c1: int, c2: int)
    requires c1 <= c2
    ensures Sweep(Sweep(db, c1), c2) == Sweep(db, c2)
  {
    var first := Expired(db, c1);
    var mid := DeleteStreams(db, first);
    ExpiredGrows(db, c1, c2);
    SweptExpired(db, c1, c2);
    DeleteTwice(db, first, Expired(Sweep(db, c1), c2));
    assert first + Expired(Sweep(db, c1), c2) == Expired(db, c2);
    SinceTwice(db.sipEvents, c1, c2);
    SinceTwice(db.callHealth, c1, c2);
    SinceTwice(db.alarmEvents, c1, c2);
  }

  lemma SweptExpired(db: Database, c1: int, c2: int)
    ensures Expired(Sweep(db, c1), c2) == Expired(db, c2) - Expired(db, c1)
  {
    var ids, after := Expired(db, c1), Sweep(db, c1);
    forall id ensures id in Expired(after, c2) <==> id in Expired(db, c2) - ids {
      if id !in ids {
        RecentAfterDelete(db, ids, c2, id);
        CandidateAfterDelete(db, ids, c2, id);
        assert Recent(after, c2, id) <==> Recent(DeleteStreams(db, ids), c2, id);
        assert id in Candidates(after, c2) <==> id in Candidates(DeleteStreams(db, ids), c2);
      }
    }
  }

  lemma SinceTwice(events: seq<int>, c1: int, c2: int)
    requires c1 <= c2
    ensures Since(Since(events, c1), c2) == Since(events, c2)
  {
    FilterTwice(events, (t: int) => t >= c1, (t: int) => t >= c2, (t: int) => t >= c2);
  }

  // ----- the sweep beside the writer -----

  /**
   The sweep never touches the writer's maps, so it keeps them consistent exactly when no mapped stream
   expires.
  */
  lemma SweepKeepsMapsIff(st: Store, cutoff: int)
    requires Consistent(st)
    ensures Consistent(st.(db := Sweep(st.db, cutoff))) <==> st.streamMap.Values !! Expired(st.db, cutoff)
  {
    var st', gone := st.(db := Sweep(st.db, cutoff)), Expired(st.db, cutoff);
    forall r | r in st'.db.intervals ensures ReportPlaced(st'.db, r) { assert ReportPlaced(st.db, r); }
    forall r | r in st'.db.statistics ensures ReportPlaced(st'.db, r) { assert ReportPlaced(st.db, r); }
    forall a | a in st'.db.audio ensures AudioPlaced(st'.db, a) { assert AudioPlaced(st.db, a); }
    forall ep | ep in st'.endpointMap ensures exists k :: BackedBy(st', k, ep, st'.endpointMap[ep]) {
      var k :| BackedBy(st, k, ep, st.endpointMap[ep]);
      assert BackedBy(st', k, ep, st'.endpointMap[ep]);
    }
    if st.streamMap.Values !! gone {
      forall id | id in st.streamMap ensures st'.streamMap[id] in st'.db.streams {
        assert st.streamMap[id] in st.streamMap.Values;
      }
    } else {
      var n :| n in st.streamMap.Values && n in gone;
      var id :| id in st.streamMap && st.streamMap[id] == n;
      assert n !in st'.db.streams;
    }
  }

  /** After a mapped stream expired, the next interval stored for it is an orphan. */
  lemma StaleEntryOrphans(cfg: Config, st: Store, r: Report, now: int, o: Outcome)
    requires r.streamId in st.streamMap && st.streamMap[r.streamId] !in st.db.streams
    requires o.insert && !FilterActive(cfg)
    ensures !NoOrphans(AddIntervalSpec(cfg, st, r, now, o).0.db)
  {
    var after := AddIntervalSpec(cfg, st, r, now, o).0;
    assert ReportRow(Some(st.streamMap[r.streamId]), r) in after.db.intervals;
  }

  const EMPTY_TABLES: Database := Database(map[], [], [], [], [], [], [])

  lemma OpenedOnly(cfg: Config, id: StreamId, createdTs: int, rowId: int)
    ensures var start, ops := Started(EMPTY_TABLES), [OpenOp(id, createdTs, Opens(rowId))];
            && RunAllowed(cfg, start, ops)
            && Run(cfg, start, ops) == OpenStreamSpec(start, id, createdTs, Opens(rowId)).0
  {
    var start, op := Started(EMPTY_TABLES), OpenOp(id, createdTs, Opens(rowId));
    assert [op][..0] == [];
    assert RunAllowed(cfg, start, []) && Run(cfg, start, []) == start;
    assert Allowed(start, op);
  }

  /**
   A run of the writer that the sweep catches: a stream is opened and stays without reports past the cutoff. The
   sweep deletes its row, the map still leads there, and the next interval is stored as an orphan.
  */
  lemma SweepCanOrphan(
    cfg: Config, id: StreamId, createdTs: int, rowId: int, cutoff: int, r: Report, now: int, o: Outcome)
    requires r.streamId == id && o.insert && !FilterActive(cfg) && createdTs < cutoff
    ensures var ops := [OpenOp(id, createdTs, Opens(rowId))];
            && RunAllowed(cfg, Started(EMPTY_TABLES), ops)
            && var st := Run(cfg, Started(EMPTY_TABLES), ops);
               var swept := st.(db := Sweep(st.db, cutoff));
               && Consistent(st) && !Consistent(swept)
               && id in swept.streamMap && swept.streamMap[id] !in swept.db.streams
               && !NoOrphans(AddIntervalSpec(cfg, swept, r, now, o).0.db)
  {
    var start, op := Started(EMPTY_TABLES), OpenOp(id, createdTs, Opens(rowId));
    OpenedOnly(cfg, id, createdTs, rowId);
    RunKeepsConsistent(cfg, start, [op]);
    var st := Run(cfg, start, [op]);
    assert st.streamMap[id] == rowId && rowId in st.streamMap.Values;
    assert rowId in Candidates(st.db, cutoff) && rowId in Expired(st.db, cutoff);
    SweepKeepsMapsIff(st, cutoff);
    StaleEntryOrphans(cfg, st.(db := Sweep(st.db, cutoff)), r, now, o);
  }

  // ----- what is written between the query and the deletes -----

  /** The database when the deletes run on what the query had found in an earlier one. */
  function LateSweep(queried: Database, db: Database, cutoff: int): Database {
    EventsCut(DeleteStreams(db, Expired(queried, cutoff)), cutoff, 3)
  }

  /** A row at or after the cutoff is deleted. */
  ghost predicate LosesFresh(queried: Database, db: Database, cutoff: int) {
    var late := LateSweep(queried, db, cutoff);
    || (exists r :: r in db.intervals && r.report.endMs >= cutoff && r !in late.intervals)
    || (exists r :: r in db.statistics && r.report.endMs >= cutoff && r !in late.statistics)
    || (exists a :: a in db.audio && a.startMs >= cutoff && a !in late.audio)
  }

  /** That happens exactly when a stream the query found has got a row at or after the cutoff since. */
  lemma GapLosesExactly(queried: Database, db: Database, cutoff: int)
    ensures LosesFresh(queried, db, cutoff) <==> exists id :: id in Expired(queried, cutoff) && Recent(db, cutoff, id)
  {
    var gone, late := Expired(queried, cutoff), LateSweep(queried, db, cutoff);
    if LosesFresh(queried, db, cutoff) {
      if r :| r in db.intervals && r.report.endMs >= cutoff && r !in late.intervals {
        assert Recent(db, cutoff, r.stream.value);
      } else if r :| r in db.statistics && r.report.endMs >= cutoff && r !in late.statistics {
        assert Recent(db, cutoff, r.stream.value);
      } else {
        var x :| x in db.audio && x.startMs >= cutoff && x !in late.audio;
        assert Recent(db, cutoff, x.stream);
      }
    }
    if id :| id in gone && Recent(db, cutoff, id) {
      if r :| r in db.intervals && r.stream == Some(id) && r.report.endMs >= cutoff { assert r !in late.intervals; }
      else if r :| r in db.statistics && r.stream == Some(id) && r.report.endMs >= cutoff {
        assert r !in late.statistics;
      }
      else { var x :| x in db.audio && x.stream == id && x.startMs >= cutoff; assert x !in late.audio; }
    }
  }

  /** What an interval report adds to the tables: at most one row, under the id its stream then has. */
  predicate StoresInterval(cfg: Config, st: Store, r: Report, o: Outcome) {
    && !(cfg.sipFilter != [] && (r.sip.peerA != "" || r.sip.peerB != "") && !SipMatches(cfg, r)) && o.insert
    && (r.streamId in st.streamMap || o.opening.Opens?)
  }

  lemma IntervalAdds(cfg: Config, st: Store, r: Report, now: int, o: Outcome)
    ensures var after := AddIntervalSpec(cfg, st, r, now, o).0;
            && after.db.statistics == st.db.statistics && after.db.audio == st.db.audio
            && if StoresInterval(cfg, st, r, o) then
                 && r.streamId in after.streamMap
                 && after.db.intervals == st.db.intervals + [ReportRow(Some(after.streamMap[r.streamId]), r)]
                 && (r.streamId in st.streamMap ==> after.streamMap[r.streamId] == st.streamMap[r.streamId])
                 && (r.streamId !in st.streamMap ==> after.streamMap[r.streamId] == o.opening.rowId)
               else after.db.intervals == st.db.intervals
  {
    var st1 := AddReportSpec(st, r, Intervals, now, o).0;
    SipUpdateAdds(st1, r, o);
  }

  lemma SipUpdateAdds(st: Store, r: Report, o: Outcome)
    ensures var after := UpdateSipSpec(st, r, o).0;
            && after.db.intervals == st.db.intervals && after.db.statistics == st.db.statistics
            && after.db.audio == st.db.audio && after.streamMap == st.streamMap
  {
  }

  /**
   An interval report written in the gap is lost exactly when it is stored, ends at or after the cutoff, and belongs
   to a stream that is mapped and expired.
  */
  lemma GapLosesReport(cfg: Config, st: Store, r: Report, now: int, o: Outcome, cutoff: int)
    requires o.opening.Opens? ==> o.opening.rowId !in st.db.streams
    ensures LosesFresh(st.db, AddIntervalSpec(cfg, st, r, now, o).0.db, cutoff)
            <==> StoresInterval(cfg, st, r, o) && r.endMs >= cutoff
                 && r.streamId in st.streamMap && st.streamMap[r.streamId] in Expired(st.db, cutoff)
  {
    var db, gone := AddIntervalSpec(cfg, st, r, now, o).0.db, Expired(st.db, cutoff);
    IntervalAdds(cfg, st, r, now, o);
    GapLosesExactly(st.db, db, cutoff);
    if StoresInterval(cfg, st, r, o) {
      var row := ReportRow(Some(AddIntervalSpec(cfg, st, r, now, o).0.streamMap[r.streamId]), r);
      forall id | id in gone ensures Recent(db, cutoff, id) <==> row.stream == Some(id) && r.endMs >= cutoff {
        RecentWithOneMore(st.db, db, row, cutoff, id);
      }
    } else {
      forall id | id in gone ensures !Recent(db, cutoff, id) { SameRecent(st.db, db, cutoff, id); }
    }
  }

  lemma SameRecent(before: Database, db: Database, cutoff: int, id: int)
    requires db.intervals == before.intervals && db.statistics == before.statistics && db.audio == before.audio
    ensures Recent(db, cutoff, id) <==> Recent(before, cutoff, id)
  {
  }

  lemma RecentWithOneMore(before: Database, db: Database, row: ReportRow, cutoff: int, id: int)
    requires db.intervals == before.intervals + [row] && db.statistics == before.statistics && db.audio == before.audio
    requires !Recent(before, cutoff, id)
    ensures Recent(db, cutoff, id) <==> row.stream == Some(id) && row.report.endMs >= cutoff
  {
    if row.stream == Some(id) && row.report.endMs >= cutoff { assert row in db.intervals; }
  }

  /** Such a run: a stream opened before the cutoff reports for the first time after the query has found it. */
  lemma GapCanLose(
    cfg: Config, id: StreamId, createdTs: int, rowId: int, cutoff: int, r: Report, now: int, o: Outcome)
    requires r.streamId == id && o.insert && o.opening.OpenFails? && !FilterActive(cfg)
    requires createdTs < cutoff <= r.endMs
    ensures var st := Run(cfg, Started(EMPTY_TABLES), [OpenOp(id, createdTs, Opens(rowId))]);
            LosesFresh(st.db, AddIntervalSpec(cfg, st, r, now, o).0.db, cutoff)
  {
    OpenedOnly(cfg, id, createdTs, rowId);
    var start, op := Started(EMPTY_TABLES), OpenOp(id, createdTs, Opens(rowId));
    var st := Run(cfg, start, [op]);
    RunKeepsConsistent(cfg, start, [op]);
    assert rowId in Candidates(st.db, cutoff) && rowId in Expired(st.db, cutoff);
    GapLosesReport(cfg, st, r, now, o, cutoff);
  }
}

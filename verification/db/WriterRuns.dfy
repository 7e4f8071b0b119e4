/** What every run of the writer keeps, whichever of its database operations fail. */
module WriterRuns {
  import opened Lists
  import opened Results
  import opened Texts
  import opened Tables
  import opened Calls
  import opened Writer

  datatype Op =
    | OpenOp(id: StreamId, createdTs: int, opening: Opening)
    | IntervalOp(report: Report, now: int, outcome: Outcome)
    | FinalOp(report: Report, now: int, outcome: Outcome)
    | AudioOp(audio: Audio, outcome: Outcome)
    | TrimOp(n: int, outcome: Outcome)

  function Step(cfg: Config, st: Store, op: Op): Store {
    match op
    case OpenOp(id, ts, opening) => OpenStreamSpec(st, id, ts, opening).0
    case IntervalOp(r, now, o) => AddIntervalSpec(cfg, st, r, now, o).0
    case FinalOp(r, now, o) => AddFinalSpec(cfg, st, r, now, o).0
    case AudioOp(a, o) => AddAudioSpec(st, a, o).0
    case TrimOp(n, o) => TrimSpec(st, n, o).0
  }

  /** A new row gets an id that is not in the table; it may be one used before. */
  ghost predicate Unused(st: Store, o: Opening) {
    o.Opens? ==> o.rowId !in st.db.streams
  }

  ghost predicate Allowed(st: Store, op: Op) {
    match op
    case OpenOp(_, _, opening) => Unused(st, opening)
    case IntervalOp(_, _, o) => Unused(st, o.opening)
    case FinalOp(_, _, o) => Unused(st, o.opening)
    case AudioOp(_, _) => true
    case TrimOp(_, _) => true
  }

  function Run(cfg: Config, st: Store, ops: seq<Op>): Store {
    if ops == [] then st else Step(cfg, Run(cfg, st, ops[..|ops| - 1]), ops[|ops| - 1])
  }

  ghost predicate RunAllowed(cfg: Config, st: Store, ops: seq<Op>) {
    ops == [] || (RunAllowed(cfg, st, ops[..|ops| - 1]) && Allowed(Run(cfg, st, ops[..|ops| - 1]), ops[|ops| - 1]))
  }

  lemma {:induction false} RunConcat(cfg: Config, st: Store, a: seq<Op>, b: seq<Op>)
    ensures Run(cfg, st, a + b) == Run(cfg, Run(cfg, st, a), b)
  {
    if b == [] {
      ConcatNothing(a);
    } else {
      RunConcat(cfg, st, a, b[..|b| - 1]);
      LastOfConcat(a, b);
    }
  }

  // ----- the invariant -----

  /** Every mapped identity has a row of its own. */
  ghost predicate Mapped(st: Store) {
    forall id :: id in st.streamMap ==> st.streamMap[id] in st.db.streams && st.db.streams[st.streamMap[id]].id == id
  }

  ghost predicate BackedBy(st: Store, id: StreamId, ep: Endpoint, n: int) {
    id in st.streamMap && st.streamMap[id] == n && id.endpoint == ep
  }

  /** Every endpoint entry is that of a mapped identity with the endpoint. */
  ghost predicate EndpointsBacked(st: Store) {
    forall ep :: ep in st.endpointMap ==> exists id :: BackedBy(st, id, ep, st.endpointMap[ep])
  }

  ghost predicate ReportPlaced(db: Database, r: ReportRow) {
    r.stream.Some? && r.stream.value in db.streams && db.streams[r.stream.value].id == r.report.streamId
  }

  ghost predicate AudioPlaced(db: Database, a: AudioRow) {
    a.stream in db.streams && db.streams[a.stream].id.endpoint == a.origin
  }

  /** Every report row belongs to a live stream with its identity, every audio row to one with its endpoint. */
  ghost predicate RowsPlaced(db: Database) {
    && (forall r :: r in db.intervals ==> ReportPlaced(db, r))
    && (forall r :: r in db.statistics ==> ReportPlaced(db, r))
    && (forall a :: a in db.audio ==> AudioPlaced(db, a))
  }

  ghost predicate Consistent(st: Store) {
    Mapped(st) && EndpointsBacked(st) && RowsPlaced(st.db)
  }

  /** No two identities share a row. */
  lemma MapIsInjective(st: Store, a: StreamId, b: StreamId)
    requires Mapped(st) && a in st.streamMap && b in st.streamMap && st.streamMap[a] == st.streamMap[b]
    ensures a == b
  {
  }

  // ----- one operation at a time -----

  lemma OpenKeeps(st: Store, id: StreamId, ts: int, o: Opening)
    requires Consistent(st) && Unused(st, o)
    ensures Consistent(OpenStreamSpec(st, id, ts, o).0)
    ensures var (st', n) := OpenStreamSpec(st, id, ts, o);
            n.Some? ==> id in st'.streamMap && st'.streamMap[id] == n.value
  {
    if id !in st.streamMap && o.Opens? {
      var st' := OpenStreamSpec(st, id, ts, o).0;
      assert BackedBy(st', id, id.endpoint, o.rowId);
      forall ep | ep in st'.endpointMap ensures exists k :: BackedBy(st', k, ep, st'.endpointMap[ep]) {
        if ep != id.endpoint {
          var k :| BackedBy(st, k, ep, st.endpointMap[ep]);
          assert BackedBy(st', k, ep, st'.endpointMap[ep]);
        }
      }
      RowsStayPlaced(st.db, st'.db);
    }
  }

  /** Every stream row is still there with its identity. */
  ghost predicate KeepsStreams(db: Database, db': Database) {
    forall n {:trigger n in db.streams} :: n in db.streams ==> n in db'.streams && db'.streams[n].id == db.streams[n].id
  }

  /** Rows stay placed while their streams keep their identity. */
  lemma RowsStayPlaced(db: Database, db': Database)
    requires RowsPlaced(db)
    requires db'.intervals == db.intervals && db'.statistics == db.statistics && db'.audio == db.audio
    requires KeepsStreams(db, db')
    ensures RowsPlaced(db')
  {
    forall r | r in db.intervals ensures ReportPlaced(db', r) { ReportStaysPlaced(db, db', r); }
    forall r | r in db.statistics ensures ReportPlaced(db', r) { ReportStaysPlaced(db, db', r); }
    forall a | a in db.audio ensures AudioPlaced(db', a) { assert AudioPlaced(db, a); }
  }

  lemma ReportStaysPlaced(db: Database, db': Database, r: ReportRow)
    requires ReportPlaced(db, r) && KeepsStreams(db, db')
    ensures ReportPlaced(db', r)
  {
    var n := r.stream.value;
    assert n in db.streams;
  }

  lemma SameMaps(st: Store, st': Store)
    requires Mapped(st) && EndpointsBacked(st) && st'.streamMap == st.streamMap && st'.endpointMap == st.endpointMap
    requires KeepsStreams(st.db, st'.db)
    ensures Mapped(st') && EndpointsBacked(st')
  {
    forall id | id in st'.streamMap
      ensures st'.streamMap[id] in st'.db.streams && st'.db.streams[st'.streamMap[id]].id == id
    {
      var n := st.streamMap[id];
      assert n in st.db.streams;
    }
    forall ep | ep in st'.endpointMap ensures exists k :: BackedBy(st', k, ep, st'.endpointMap[ep]) {
      var k :| BackedBy(st, k, ep, st.endpointMap[ep]);
      assert BackedBy(st', k, ep, st'.endpointMap[ep]);
    }
  }

  lemma AddReportKeeps(st: Store, r: Report, table: Table, now: int, o: Outcome)
    requires Consistent(st) && Unused(st, o.opening)
    ensures Consistent(AddReportSpec(st, r, table, now, o).0)
  {
    OpenKeeps(st, r.streamId, now, o.opening);
    var (st1, id) := OpenStreamSpec(st, r.streamId, now, o.opening);
    if id.Some? && o.insert {
      var st2 := AddReportSpec(st, r, table, now, o).0;
      SameMaps(st1, st2);
      assert ReportPlaced(st1.db, ReportRow(id, r));
      InsertKeeps(st1.db, table, ReportRow(id, r));
    }
  }

  lemma InsertKeeps(db: Database, table: Table, row: ReportRow)
    requires RowsPlaced(db) && ReportPlaced(db, row)
    ensures RowsPlaced(Inserted(db, table, row))
  {
    var db' := Inserted(db, table, row);
    forall r | r in db'.intervals ensures ReportPlaced(db', r) {
      assert r in db.intervals || r == row;
      assert ReportPlaced(db, r);
    }
    forall r | r in db'.statistics ensures ReportPlaced(db', r) {
      assert r in db.statistics || r == row;
      assert ReportPlaced(db, r);
    }
    forall a | a in db'.audio ensures AudioPlaced(db', a) { assert AudioPlaced(db, a); }
  }

  lemma UpdateSipKeeps(st: Store, r: Report, o: Outcome)
    requires Consistent(st)
    ensures Consistent(UpdateSipSpec(st, r, o).0)
  {
    var st' := UpdateSipSpec(st, r, o).0;
    SameMaps(st, st');
    RowsStayPlaced(st.db, st'.db);
  }

  lemma AudioKeeps(st: Store, a: Audio, o: Outcome)
    requires Consistent(st)
    ensures Consistent(AddAudioSpec(st, a, o).0)
  {
    var st' := AddAudioSpec(st, a, o).0;
    SameMaps(st, st');
    if st' != st {
      var n := AudioTarget(st, a).value;
      var row := AudioRow(n, a.startMs, a.finishMs, a.wav, a.streamId.endpoint);
      if a.streamId !in st.streamMap {
        var k :| BackedBy(st, k, a.streamId.endpoint, n);
        assert st.db.streams[n].id == k;
      }
      forall x | x in st'.db.audio ensures AudioPlaced(st'.db, x) { assert x in st.db.audio || x == row; }
      forall r | r in st'.db.intervals ensures ReportPlaced(st'.db, r) { assert ReportPlaced(st.db, r); }
      forall r | r in st'.db.statistics ensures ReportPlaced(st'.db, r) { assert ReportPlaced(st.db, r); }
    }
  }

  /** Deleting streams and forgetting them in both maps keeps the store consistent. */
  lemma ForgetKeeps(st: Store, ids: set<int>)
    requires Consistent(st)
    ensures Consistent(Forgotten(st.(db := DeleteStreams(st.db, ids)), ids))
  {
    var st' := Forgotten(st.(db := DeleteStreams(st.db, ids)), ids);
    var gone := MappedTo(st.streamMap, ids);
    forall ep | ep in st'.endpointMap ensures exists k :: BackedBy(st', k, ep, st'.endpointMap[ep]) {
      var k :| BackedBy(st, k, ep, st.endpointMap[ep]);
      assert k in gone ==> k.endpoint in EndpointsOf(gone);
      assert BackedBy(st', k, ep, st'.endpointMap[ep]);
    }
    forall r | r in st'.db.intervals ensures ReportPlaced(st'.db, r) { assert ReportPlaced(st.db, r); }
    forall r | r in st'.db.statistics ensures ReportPlaced(st'.db, r) { assert ReportPlaced(st.db, r); }
    forall a | a in st'.db.audio ensures AudioPlaced(st'.db, a) { assert AudioPlaced(st.db, a); }
  }

  /** Purging an identity is deleting and forgetting its row. */
  lemma PurgeIsForget(st: Store, id: StreamId, o: Outcome)
    requires Mapped(st) && id in st.streamMap && o.delete
    ensures var n := st.streamMap[id];
            PurgeSpec(st, id, o) == (Forgotten(st.(db := DeleteStreams(st.db, {n})), {n}), true)
  {
    var n := st.streamMap[id];
    forall k | k in MappedTo(st.streamMap, {n}) ensures k == id { MapIsInjective(st, k, id); }
    assert MappedTo(st.streamMap, {n}) == {id};
    assert EndpointsOf({id}) == {id.endpoint};
  }

  lemma PurgeKeeps(st: Store, id: StreamId, o: Outcome)
    requires Consistent(st)
    ensures Consistent(PurgeSpec(st, id, o).0)
  {
    if id in st.streamMap && o.delete {
      PurgeIsForget(st, id, o);
      ForgetKeeps(st, {st.streamMap[id]});
    }
  }

  lemma TrimKeeps(st: Store, n: int, o: Outcome)
    requires Consistent(st)
    ensures Consistent(TrimSpec(st, n, o).0)
  {
    if n > 0 { ForgetKeeps(st, EvictedStreams(st.db, n)); }
  }

  lemma StepKeeps(cfg: Config, st: Store, op: Op)
    requires Consistent(st) && Allowed(st, op)
    ensures Consistent(Step(cfg, st, op))
  {
    match op
    case OpenOp(id, ts, opening) => OpenKeeps(st, id, ts, opening);
    case IntervalOp(r, now, o) =>
      AddReportKeeps(st, r, Intervals, now, o);
      UpdateSipKeeps(AddReportSpec(st, r, Intervals, now, o).0, r, o);
    case FinalOp(r, now, o) => FinalKeeps(cfg, st, r, now, o);
    case AudioOp(a, o) => AudioKeeps(st, a, o);
    case TrimOp(n, o) => TrimKeeps(st, n, o);
  }

  lemma FinalKeeps(cfg: Config, st: Store, r: Report, now: int, o: Outcome)
    requires Consistent(st) && Unused(st, o.opening)
    ensures Consistent(AddFinalSpec(cfg, st, r, now, o).0)
  {
    PurgeKeeps(st, r.streamId, o);
    AddReportKeeps(st, r, Statistics, now, o);
    var st1 := AddReportSpec(st, r, Statistics, now, o).0;
    UpdateSipKeeps(st1, r, o);
    TrimKeeps(UpdateSipSpec(st1, r, o).0, cfg.recordsLimit, o);
  }

  /** Maps and tables stay consistent over every run, with any operations failing. */
  lemma {:induction false} RunKeepsConsistent(cfg: Config, st: Store, ops: seq<Op>)
    requires Consistent(st) && RunAllowed(cfg, st, ops)
    ensures Consistent(Run(cfg, st, ops))
  {
    if ops != [] {
      RunKeepsConsistent(cfg, st, ops[..|ops| - 1]);
      StepKeeps(cfg, Run(cfg, st, ops[..|ops| - 1]), ops[|ops| - 1]);
    }
  }

  // ----- what belongs to the session -----

  /** Streams without an identity in the map, and their rows, were there at the start. */
  ghost predicate UnownedIsOld(db0: Database, st: Store) {
    var owned := st.streamMap.Values;
    && (forall n :: n in st.db.streams && n !in owned ==> n in db0.streams && st.db.streams[n] == db0.streams[n])
    && (forall r :: r in st.db.intervals && r.stream.Some? && r.stream.value !in owned ==> r in db0.intervals)
    && (forall r :: r in st.db.statistics && r.stream.Some? && r.stream.value !in owned ==> r in db0.statistics)
    && (forall a :: a in st.db.audio && a.stream !in owned ==> a in db0.audio)
  }

  lemma OpenOwns(db0: Database, st: Store, id: StreamId, ts: int, o: Opening)
    requires UnownedIsOld(db0, st) && Unused(st, o)
    ensures UnownedIsOld(db0, OpenStreamSpec(st, id, ts, o).0)
    ensures var (st', n) := OpenStreamSpec(st, id, ts, o); n.Some? ==> n.value in st'.streamMap.Values
  {
    var st' := OpenStreamSpec(st, id, ts, o).0;
    if id in st.streamMap {
      assert st.streamMap[id] in st.streamMap.Values;
    } else if o.Opens? {
      forall n | n in st.streamMap.Values ensures n in st'.streamMap.Values {
        var k :| k in st.streamMap && st.streamMap[k] == n;
        assert st'.streamMap[k] == n;
      }
      assert st'.streamMap[id] == o.rowId;
    }
  }

  lemma AddReportOwns(db0: Database, st: Store, r: Report, table: Table, now: int, o: Outcome)
    requires UnownedIsOld(db0, st) && Unused(st, o.opening)
    ensures UnownedIsOld(db0, AddReportSpec(st, r, table, now, o).0)
  {
    OpenOwns(db0, st, r.streamId, now, o.opening);
    var (st1, id) := OpenStreamSpec(st, r.streamId, now, o.opening);
    if id.Some? && o.insert {
      var st2, row := AddReportSpec(st, r, table, now, o).0, ReportRow(id, r);
      assert forall x :: x in st2.db.intervals ==> x in st1.db.intervals || x == row;
      assert forall x :: x in st2.db.statistics ==> x in st1.db.statistics || x == row;
    }
  }

  lemma UpdateSipOwns(db0: Database, st: Store, r: Report, o: Outcome)
    requires UnownedIsOld(db0, st)
    ensures UnownedIsOld(db0, UpdateSipSpec(st, r, o).0)
  {
    if r.streamId in st.streamMap { assert st.streamMap[r.streamId] in st.streamMap.Values; }
  }

  lemma AudioOwns(db0: Database, st: Store, a: Audio, o: Outcome)
    requires UnownedIsOld(db0, st) && EndpointsBacked(st)
    ensures UnownedIsOld(db0, AddAudioSpec(st, a, o).0)
  {
    var st' := AddAudioSpec(st, a, o).0;
    if st' != st {
      var n := AudioTarget(st, a).value;
      if a.streamId !in st.streamMap {
        var k :| BackedBy(st, k, a.streamId.endpoint, n);
        assert st.streamMap[k] in st.streamMap.Values;
      }
      assert n in st.streamMap.Values;
      assert forall x :: x in st'.db.audio ==> x in st.db.audio || x.stream == n;
    }
  }

  lemma ForgetOwns(db0: Database, st: Store, ids: set<int>)
    requires UnownedIsOld(db0, st)
    ensures UnownedIsOld(db0, Forgotten(st.(db := DeleteStreams(st.db, ids)), ids))
  {
    var st' := Forgotten(st.(db := DeleteStreams(st.db, ids)), ids);
    forall n | n in st.streamMap.Values && n !in ids ensures n in st'.streamMap.Values {
      var k :| k in st.streamMap && st.streamMap[k] == n;
      assert st'.streamMap[k] == n;
    }
  }

  lemma FinalOwns(cfg: Config, db0: Database, st: Store, r: Report, now: int, o: Outcome)
    requires UnownedIsOld(db0, st) && Consistent(st) && Unused(st, o.opening)
    ensures UnownedIsOld(db0, AddFinalSpec(cfg, st, r, now, o).0)
  {
    if FilterActive(cfg) && !SipMatches(cfg, r) {
      if r.streamId in st.streamMap && o.delete {
        PurgeIsForget(st, r.streamId, o);
        ForgetOwns(db0, st, {st.streamMap[r.streamId]});
      }
    } else {
      AddReportOwns(db0, st, r, Statistics, now, o);
      var st1 := AddReportSpec(st, r, Statistics, now, o).0;
      UpdateSipOwns(db0, st1, r, o);
      var st2 := UpdateSipSpec(st1, r, o).0;
      if cfg.recordsLimit > 0 { ForgetOwns(db0, st2, EvictedStreams(st2.db, cfg.recordsLimit)); }
    }
  }

  lemma StepOwns(cfg: Config, db0: Database, st: Store, op: Op)
    requires UnownedIsOld(db0, st) && Consistent(st) && Allowed(st, op)
    ensures UnownedIsOld(db0, Step(cfg, st, op))
  {
    match op
    case OpenOp(id, ts, opening) => OpenOwns(db0, st, id, ts, opening);
    case IntervalOp(r, now, o) =>
      AddReportOwns(db0, st, r, Intervals, now, o);
      UpdateSipOwns(db0, AddReportSpec(st, r, Intervals, now, o).0, r, o);
    case FinalOp(r, now, o) => FinalOwns(cfg, db0, st, r, now, o);
    case AudioOp(a, o) => AudioOwns(db0, st, a, o);
    case TrimOp(n, o) => if n > 0 { ForgetOwns(db0, st, EvictedStreams(st.db, n)); }
  }

  /** The writer as it starts on an existing database. */
  function Started(db: Database): Store {
    Store(db, map[], map[])
  }

  lemma {:induction false} RunOwns(cfg: Config, db0: Database, ops: seq<Op>)
    requires RowsPlaced(db0) && RunAllowed(cfg, Started(db0), ops)
    ensures UnownedIsOld(db0, Run(cfg, Started(db0), ops))
  {
    if ops != [] {
      var front := ops[..|ops| - 1];
      RunOwns(cfg, db0, front);
      RunKeepsConsistent(cfg, Started(db0), front);
      StepOwns(cfg, db0, Run(cfg, Started(db0), front), ops[|ops| - 1]);
    }
  }

  // ----- SIP retention -----

  lemma ReportRetains(st: Store, report: Report, now: int, o: Outcome, r: ReportRow)
    requires r in AddReportSpec(st, report, Statistics, now, o).0.db.statistics
    ensures r in st.db.statistics || r.report == report
  {
  }

  lemma SipRetains(st: Store, report: Report, o: Outcome)
    ensures UpdateSipSpec(st, report, o).0.db.statistics == st.db.statistics
  {
  }

  lemma TrimRetains(st: Store, n: int, o: Outcome, r: ReportRow)
    requires r in TrimSpec(st, n, o).0.db.statistics
    ensures r in st.db.statistics
  {
  }

  lemma FinalRetains(cfg: Config, st: Store, report: Report, now: int, o: Outcome, r: ReportRow)
    requires FilterActive(cfg) && r in AddFinalSpec(cfg, st, report, now, o).0.db.statistics
    ensures r in st.db.statistics || SipMatches(cfg, r.report)
  {
    if SipMatches(cfg, report) {
      var st1 := AddReportSpec(st, report, Statistics, now, o).0;
      var st2 := UpdateSipSpec(st1, report, o).0;
      SipRetains(st1, report, o);
      if r in TrimSpec(st2, cfg.recordsLimit, o).0.db.statistics { TrimRetains(st2, cfg.recordsLimit, o, r); }
      if r in st1.db.statistics { ReportRetains(st, report, now, o, r); }
    }
  }

  lemma StepRetains(cfg: Config, st: Store, op: Op, r: ReportRow)
    requires FilterActive(cfg) && r in Step(cfg, st, op).db.statistics
    ensures r in st.db.statistics || SipMatches(cfg, r.report)
  {
    match op
    case FinalOp(report, now, o) => FinalRetains(cfg, st, report, now, o, r);
    case IntervalOp(report, now, o) =>
      assert AddReportSpec(st, report, Intervals, now, o).0.db.statistics == st.db.statistics;
    case _ =>
  }

  /** With a store filter, every final report stored in a run has matching peers. */
  lemma {:induction false} OnlyMatchingFinals(cfg: Config, st: Store, ops: seq<Op>, r: ReportRow)
    requires FilterActive(cfg) && r in Run(cfg, st, ops).db.statistics
    ensures r in st.db.statistics || SipMatches(cfg, r.report)
  {
    if ops != [] {
      var before := Run(cfg, st, ops[..|ops| - 1]);
      StepRetains(cfg, before, ops[|ops| - 1], r);
      if r in before.db.statistics { OnlyMatchingFinals(cfg, st, ops[..|ops| - 1], r); }
    }
  }

  /** No table has a row under the row id. */
  ghost predicate NothingUnder(db: Database, n: int) {
    && n !in db.streams
    && (forall x :: x in db.intervals || x in db.statistics ==> x.stream != Some(n))
    && (forall a :: a in db.audio ==> a.stream != n)
  }

  /**
   A final report that does not match leaves nothing of its stream, whatever intervals and audio came
   before: no map entry, no row in any table under the row id it had, and no row of it in any table that was
   not there when the writer started.
  */
  lemma NonMatchLeavesNothing(cfg: Config, db0: Database, ops: seq<Op>, r: Report, now: int, o: Outcome)
    requires RowsPlaced(db0) && RunAllowed(cfg, Started(db0), ops)
    requires FilterActive(cfg) && !SipMatches(cfg, r)
    requires AddFinalSpec(cfg, Run(cfg, Started(db0), ops), r, now, o).1
    ensures var st := AddFinalSpec(cfg, Run(cfg, Started(db0), ops), r, now, o).0;
            && r.streamId !in st.streamMap
            && (forall n :: n in st.db.streams && st.db.streams[n].id == r.streamId ==>
                  n in db0.streams && st.db.streams[n] == db0.streams[n])
            && (forall x :: x in st.db.intervals && x.report.streamId == r.streamId ==> x in db0.intervals)
            && (forall x :: x in st.db.statistics && x.report.streamId == r.streamId ==> x in db0.statistics)
            && (forall a :: a in st.db.audio && a !in db0.audio ==>
                  a.stream in st.db.streams && st.db.streams[a.stream].id != r.streamId)
            && var before := Run(cfg, Started(db0), ops);
               r.streamId in before.streamMap ==> NothingUnder(st.db, before.streamMap[r.streamId])
  {
    var before := Run(cfg, Started(db0), ops);
    RunOwns(cfg, db0, ops);
    RunKeepsConsistent(cfg, Started(db0), ops);
    PurgeKeeps(before, r.streamId, o);
    var st := PurgeSpec(before, r.streamId, o).0;
    if r.streamId in before.streamMap {
      PurgeIsForget(before, r.streamId, o);
      ForgetOwns(db0, before, {before.streamMap[r.streamId]});
    }
    forall n | n in st.streamMap.Values ensures n in st.db.streams && st.db.streams[n].id != r.streamId {
      var k :| k in st.streamMap && st.streamMap[k] == n;
    }
    forall x | x in st.db.intervals && x.report.streamId == r.streamId ensures x in db0.intervals {
      assert ReportPlaced(st.db, x);
    }
    forall x | x in st.db.statistics && x.report.streamId == r.streamId ensures x in db0.statistics {
      assert ReportPlaced(st.db, x);
    }
    forall a | a in st.db.audio && a !in db0.audio
      ensures a.stream in st.db.streams && st.db.streams[a.stream].id != r.streamId
    {
      assert a.stream in st.streamMap.Values;
    }
  }

  // ----- the records limit -----

  /** Call a ended later than call b; of two that ended together, a has the larger key. */
  ghost predicate Newer(db: Database, a: string, b: string)
    requires a in FinishedKeys(db) && b in FinishedKeys(db)
  {
    LastTs(db, a) > LastTs(db, b) || (LastTs(db, a) == LastTs(db, b) && TextLess(b, a))
  }

  /** From the first store to the second the given streams have gone with all that was theirs, and nothing else. */
  ghost predicate OnlyWent(st: Store, after: Store, gone: set<int>) {
    && OthersRemain(st.db, after.db, gone)
    && after.streamMap == map k | k in st.streamMap && st.streamMap[k] !in gone :: st.streamMap[k]
  }

  lemma NothingWent(st: Store)
    ensures OnlyWent(st, st, {})
  {
    DeleteUnrelated(st.db, {});
    DeleteLeavesOthers(st.db, {});
  }

  lemma ForgottenWent(st: Store, ids: set<int>)
    ensures OnlyWent(st, Forgotten(st.(db := DeleteStreams(st.db, ids)), ids), ids)
  {
    DeleteLeavesOthers(st.db, ids);
  }

  /** The streams of the calls that are not finished calls any more. */
  function StreamsGone(before: Database, after: Database): set<int> {
    StreamsOfCalls(before, FinishedKeys(before) - FinishedKeys(after))
  }

  lemma EvictedGone(db: Database, n: nat)
    ensures StreamsGone(db, Trimmed(db, n)) == EvictedStreams(db, n)
  {
    var was, evicted := FinishedKeys(db), Evicted(db, n);
    TrimKeepsTheNewest(db, n);
    assert was - (was - evicted) == evicted;
  }

  /**
   Trimming to n keeps n finished calls, or all if there are fewer. Every call it keeps is newer than every call it
   drops; the streams of the dropped calls go with all their rows and map entries, and no other row does.
  */
  lemma TrimMeans(st: Store, n: int, o: Outcome)
    requires n > 0 && TrimSpec(st, n, o).1
    ensures var after := TrimSpec(st, n, o).0;
            var was, kept := FinishedKeys(st.db), FinishedKeys(after.db);
            && kept <= was && |kept| == (if |was| < n then |was| else n)
            && (forall a, b :: a in kept && b in was - kept ==> Newer(st.db, a, b))
    ensures var after := TrimSpec(st, n, o).0; OnlyWent(st, after, StreamsGone(st.db, after.db))
  {
    if |FinishedKeys(st.db)| <= n { FewStay(st); } else { TrimmedMeans(st, n); }
  }

  lemma FewStay(st: Store)
    ensures FinishedKeys(st.db) - FinishedKeys(st.db) == {}
    ensures OnlyWent(st, st, StreamsGone(st.db, st.db))
  {
    assert StreamsGone(st.db, st.db) == {};
    NothingWent(st);
  }

  lemma TrimmedSets(db: Database, n: nat)
    ensures var was, kept := FinishedKeys(db), FinishedKeys(Trimmed(db, n));
            && kept <= was && |kept| == Min(n, |was|)
            && (forall a, b :: a in kept && b in was - kept ==> Newer(db, a, b))
  {
    var was, evicted := FinishedKeys(db), Evicted(db, n);
    TrimKeepsTheNewest(db, n);
    forall a, b | a in was - evicted && b in was - (was - evicted) ensures Newer(db, a, b) {
      assert b in evicted && Before(db, a, b);
    }
  }

  lemma TrimmedWent(st: Store, n: nat, after: Store, gone: set<int>)
    requires after == Forgotten(st.(db := Trimmed(st.db, n)), EvictedStreams(st.db, n))
    requires gone == EvictedStreams(st.db, n)
    ensures OnlyWent(st, after, gone)
  {
    ForgottenWent(st, gone);
  }

  lemma TrimmedMeans(st: Store, n: nat)
    ensures var after := Forgotten(st.(db := Trimmed(st.db, n)), EvictedStreams(st.db, n));
            var was, kept := FinishedKeys(st.db), FinishedKeys(after.db);
            && kept <= was && |kept| == Min(n, |was|)
            && (forall a, b :: a in kept && b in was - kept ==> Newer(st.db, a, b))
            && OnlyWent(st, after, StreamsGone(st.db, after.db))
  {
    var after := Forgotten(st.(db := Trimmed(st.db, n)), EvictedStreams(st.db, n));
    assert after.db == Trimmed(st.db, n);
    TrimmedSets(st.db, n);
    EvictedGone(st.db, n);
    TrimmedWent(st, n, after, StreamsGone(st.db, after.db));
  }

  /** The store once a matching final report is inserted and its stream's SIP data updated. */
  function WithFinal(st: Store, r: Report, now: int, o: Outcome): Store {
    UpdateSipSpec(AddReportSpec(st, r, Statistics, now, o).0, r, o).0
  }

  /** A stored final report under a limit of N leaves N finished calls, or all if there are fewer. */
  lemma LimitHolds(cfg: Config, st: Store, r: Report, now: int, o: Outcome)
    requires cfg.recordsLimit > 0 && (FilterActive(cfg) ==> SipMatches(cfg, r))
    requires AddFinalSpec(cfg, st, r, now, o).1
    ensures var before := FinishedKeys(WithFinal(st, r, now, o).db);
            var kept := FinishedKeys(AddFinalSpec(cfg, st, r, now, o).0.db);
            && kept <= before && |kept| == (if |before| < cfg.recordsLimit then |before| else cfg.recordsLimit)
            && (forall a, b :: a in kept && b in before - kept ==> Newer(WithFinal(st, r, now, o).db, a, b))
  {
    TrimMeans(WithFinal(st, r, now, o), cfg.recordsLimit, o);
  }

  // ----- what the operations store -----

  /** A report matches when some pattern of the filter occurs in one of its lower-cased peers. */
  lemma MatchesExact(cfg: Config, r: Report)
    ensures SipMatches(cfg, r) <==>
              exists p, i: nat :: p in cfg.sipFilter
                && (OccursAt(p, cfg.lower(r.sip.peerA), i) || OccursAt(p, cfg.lower(r.sip.peerB), i))
  {
    var a, b := cfg.lower(r.sip.peerA), cfg.lower(r.sip.peerB);
    if SipMatches(cfg, r) {
      var p :| p in cfg.sipFilter && (Contains(a, p) || Contains(b, p));
      ContainsExact(a, p);
      ContainsExact(b, p);
      if Contains(a, p) { var i: nat :| OccursAt(p, a, i); } else { var i: nat :| OccursAt(p, b, i); }
    }
    if p, i: nat :| p in cfg.sipFilter && (OccursAt(p, a, i) || OccursAt(p, b, i)) {
      ContainsExact(a, p);
      ContainsExact(b, p);
    }
  }

  /** Without a limit a final report adds its own row, under its stream's id, unless the filter holds it back. */
  lemma FinalAdds(cfg: Config, st: Store, r: Report, now: int, o: Outcome)
    requires cfg.recordsLimit <= 0 && AddFinalSpec(cfg, st, r, now, o).1
    requires cfg.sipFilter == [] || SipMatches(cfg, r)
    ensures var after := AddFinalSpec(cfg, st, r, now, o).0;
            && r.streamId in after.streamMap
            && after.db.statistics == st.db.statistics + [ReportRow(Some(after.streamMap[r.streamId]), r)]
            && after.db.intervals == st.db.intervals && after.db.audio == st.db.audio
  {
  }

  /**
   An audio chunk is stored with its own times and sound under the row of its stream, or else of the stream last
   opened with its endpoint; without sound or such a row nothing is stored.
  */
  lemma AudioAdds(st: Store, a: Audio, o: Outcome)
    requires o.insert
    ensures var after, id := AddAudioSpec(st, a, o).0, a.streamId;
            && after.streamMap == st.streamMap && after.endpointMap == st.endpointMap
            && after.db == st.db.(audio := after.db.audio)
            && (a.wav != [] && id in st.streamMap ==>
                  after.db.audio == st.db.audio
                    + [AudioRow(st.streamMap[id], a.startMs, a.finishMs, a.wav, id.endpoint)])
            && (a.wav != [] && id !in st.streamMap && id.endpoint in st.endpointMap ==>
                  after.db.audio == st.db.audio
                    + [AudioRow(st.endpointMap[id.endpoint], a.startMs, a.finishMs, a.wav, id.endpoint)])
            && (a.wav == [] || (id !in st.streamMap && id.endpoint !in st.endpointMap) ==>
                  after.db.audio == st.db.audio)
  {
  }

  /** A report without a Call-ID leaves what is known of every stream's call as it was. */
  lemma NoCallIdKeeps(cfg: Config, st: Store, r: Report, now: int, o: Outcome)
    requires r.sip.callId == ""
    ensures var after := AddIntervalSpec(cfg, st, r, now, o).0;
            forall n :: n in st.db.streams && !(o.opening.Opens? && n == o.opening.rowId) ==>
              n in after.db.streams && after.db.streams[n] == st.db.streams[n]
  {
  }
}

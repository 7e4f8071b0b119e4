/**
 The single-writer database layer: domain events become rows, tracked by a map from stream identity
 to row id and a map from endpoint to row id.
*/
module Writer {
  import opened Lists
  import opened Results
  import opened Texts
  import opened Tables
  import opened Calls

  /**
   Retention options: at most `recordsLimit` calls (0 = all), and only calls whose peers match (no patterns = all).
  */
  datatype Config = Config(recordsLimit: int, sipFilter: seq<string>, lower: string -> string)

  /** The database and the writer's maps. */
  datatype Store = Store(db: Database, streamMap: map<StreamId, int>, endpointMap: map<Endpoint, int>)

  /** How opening a stream goes: it fails before the row is written, or the row gets a new id. */
  datatype Opening = OpenFails | Opens(rowId: int)

  /** Which database operations of one call succeed. A transaction that fails leaves no trace. */
  datatype Outcome = Outcome(opening: Opening, insert: bool, sipUpdate: bool, query: bool, delete: bool)

  datatype Table = Intervals | Statistics

  // ----- the operations on values -----

  predicate HasSip(r: Report) {
    r.sip.peerA != "" || r.sip.peerB != ""
  }

  predicate FilterActive(cfg: Config) {
    cfg.sipFilter != []
  }

  predicate SipMatches(cfg: Config, r: Report) {
    exists p :: p in cfg.sipFilter && (Contains(cfg.lower(r.sip.peerA), p) || Contains(cfg.lower(r.sip.peerB), p))
  }

  function OpenStreamSpec(st: Store, id: StreamId, createdTs: int, o: Opening): (Store, Option<int>) {
    if id in st.streamMap then (st, Some(st.streamMap[id]))
    else match o
      case OpenFails => (st, None)
      case Opens(n) =>
        var row := StreamRow(id, None, None, None, Some(createdTs));
        (Store(st.db.(streams := st.db.streams[n := row]), st.streamMap[id := n], st.endpointMap[id.endpoint := n]),
         Some(n))
  }

  function Inserted(db: Database, table: Table, row: ReportRow): Database {
    match table
    case Intervals => db.(intervals := db.intervals + [row])
    case Statistics => db.(statistics := db.statistics + [row])
  }

  function AddReportSpec(st: Store, r: Report, table: Table, now: int, o: Outcome): (Store, bool) {
    var (st1, id) := OpenStreamSpec(st, r.streamId, now, o.opening);
    if id.None? || !o.insert then (st1, false)
    else (st1.(db := Inserted(st1.db, table, ReportRow(id, r))), true)
  }

  function UpdateSipSpec(st: Store, r: Report, o: Outcome): (Store, bool) {
    if r.sip.callId == "" || r.streamId !in st.streamMap then (st, true)
    else if !o.sipUpdate then (st, false)
    else
      var n := st.streamMap[r.streamId];
      if n !in st.db.streams then (st, true)
      else
        var row := st.db.streams[n].(
          callId := Some(r.sip.callId), source := Some(r.sip.peerA), destination := Some(r.sip.peerB));
        (st.(db := st.db.(streams := st.db.streams[n := row])), true)
  }

  function AddIntervalSpec(cfg: Config, st: Store, r: Report, now: int, o: Outcome): (Store, bool) {
    if FilterActive(cfg) && HasSip(r) && !SipMatches(cfg, r) then (st, true)
    else
      var (st1, ok) := AddReportSpec(st, r, Intervals, now, o);
      if !ok then (st1, false) else UpdateSipSpec(st1, r, o)
  }

  function PurgeSpec(st: Store, id: StreamId, o: Outcome): (Store, bool) {
    if id !in st.streamMap then (st, true)
    else if !o.delete then (st, false)
    else
      (Store(DeleteStreams(st.db, {st.streamMap[id]}), st.streamMap - {id}, st.endpointMap - {id.endpoint}), true)
  }

  /** The identities whose row ids are among `ids`. */
  function MappedTo(m: map<StreamId, int>, ids: set<int>): set<StreamId> {
    set k | k in m && m[k] in ids
  }

  function EndpointsOf(keys: set<StreamId>): set<Endpoint> {
    set k | k in keys :: k.endpoint
  }

  function Forgotten(st: Store, ids: set<int>): Store {
    Removed(st, MappedTo(st.streamMap, ids))
  }

  function TrimSpec(st: Store, n: int, o: Outcome): (Store, bool) {
    if n <= 0 then (st, true)
    else if !o.query then (st, false)
    else if |FinishedKeys(st.db)| <= n then (st, true)
    else if !o.delete then (st, false)
    else (Forgotten(st.(db := Trimmed(st.db, n)), EvictedStreams(st.db, n)), true)
  }

  function AddFinalSpec(cfg: Config, st: Store, r: Report, now: int, o: Outcome): (Store, bool) {
    if FilterActive(cfg) && !SipMatches(cfg, r) then PurgeSpec(st, r.streamId, o)
    else
      var (st1, ok1) := AddReportSpec(st, r, Statistics, now, o);
      if !ok1 then (st1, false)
      else
        var (st2, ok2) := UpdateSipSpec(st1, r, o);
        if !ok2 then (st2, false)
        else if cfg.recordsLimit > 0 then TrimSpec(st2, cfg.recordsLimit, o)
        else (st2, true)
  }

  /** The row a chunk is stored under: its stream's, else the last opened with its endpoint. */
  function AudioTarget(st: Store, a: Audio): Option<int> {
    if a.streamId in st.streamMap then Some(st.streamMap[a.streamId])
    else if a.streamId.endpoint in st.endpointMap then Some(st.endpointMap[a.streamId.endpoint])
    else None
  }

  function AddAudioSpec(st: Store, a: Audio, o: Outcome): (Store, bool) {
    if a.wav == [] || AudioTarget(st, a).None? then (st, true)
    else if !o.insert then (st, false)
    else
      var row := AudioRow(AudioTarget(st, a).value, a.startMs, a.finishMs, a.wav, a.streamId.endpoint);
      (st.(db := st.db.(audio := st.db.audio + [row])), true)
  }

  // ----- the object -----

  class DbWriter {
    const config: Config
    var db: Database
    var streamMap: map<StreamId, int>
    var endpointMap: map<Endpoint, int>

    ghost function State(): Store
      reads this
    {
      Store(db, streamMap, endpointMap)
    }

    constructor (config: Config, db: Database)
      ensures this.config == config && State() == Store(db, map[], map[])
    {
      this.config := config;
      this.db := db;
      streamMap, endpointMap := map[], map[];
    }

    method OpenStreamAt(id: StreamId, createdTs: int, o: Opening) returns (rowId: Option<int>)
      modifies this
      ensures (State(), rowId) == OpenStreamSpec(old(State()), id, createdTs, o)
    {
      if id in streamMap { return Some(streamMap[id]); }
      if o.OpenFails? { return None; }
      db := db.(streams := db.streams[o.rowId := StreamRow(id, None, None, None, Some(createdTs))]);
      streamMap := streamMap[id := o.rowId];
      endpointMap := endpointMap[id.endpoint := o.rowId];
      rowId := Some(o.rowId);
    }

    method MatchesFilter(r: Report) returns (b: bool)
      ensures b == SipMatches(config, r)
    {
      var a, c := config.lower(r.sip.peerA), config.lower(r.sip.peerB);
      for i := 0 to |config.sipFilter|
        invariant forall j :: 0 <= j < i ==> !Contains(a, config.sipFilter[j]) && !Contains(c, config.sipFilter[j])
      {
        if Contains(a, config.sipFilter[i]) || Contains(c, config.sipFilter[i]) { return true; }
      }
      b := false;
    }

    method AddReport(r: Report, table: Table, now: int, o: Outcome) returns (ok: bool)
      modifies this
      ensures (State(), ok) == AddReportSpec(old(State()), r, table, now, o)
    {
      var id;
      if r.streamId in streamMap {
        id := streamMap[r.streamId];
      } else {
        var rowId := OpenStreamAt(r.streamId, now, o.opening);
        if rowId.None? { return false; }
        id := rowId.value;
      }
      if !o.insert { return false; }
      var row := ReportRow(Some(id), r);
      match table {
        case Intervals => db := db.(intervals := db.intervals + [row]);
        case Statistics => db := db.(statistics := db.statistics + [row]);
      }
      ok := true;
    }

    method MaybeUpdateSip(r: Report, o: Outcome) returns (ok: bool)
      modifies this
      ensures (State(), ok) == UpdateSipSpec(old(State()), r, o)
    {
      if r.sip.callId == "" || r.streamId !in streamMap { return true; }
      if !o.sipUpdate { return false; }
      var n := streamMap[r.streamId];
      if n in db.streams {
        var row := db.streams[n].(
          callId := Some(r.sip.callId), source := Some(r.sip.peerA), destination := Some(r.sip.peerB));
        db := db.(streams := db.streams[n := row]);
      }
      ok := true;
    }

    method AddInterval(r: Report, now: int, o: Outcome) returns (ok: bool)
      modifies this
      ensures (State(), ok) == AddIntervalSpec(config, old(State()), r, now, o)
    {
      if FilterActive(config) && HasSip(r) {
        var matching := MatchesFilter(r);
        if !matching { return true; }
      }
      ok := AddReport(r, Intervals, now, o);
      if ok { ok := MaybeUpdateSip(r, o); }
    }

    method AddFinal(r: Report, now: int, o: Outcome) returns (ok: bool)
      modifies this
      ensures (State(), ok) == AddFinalSpec(config, old(State()), r, now, o)
    {
      if FilterActive(config) {
        var matching := MatchesFilter(r);
        if !matching {
          ok := PurgeStream(r.streamId, o);
          return;
        }
      }
      ok := AddReport(r, Statistics, now, o);
      if !ok { return; }
      ok := MaybeUpdateSip(r, o);
      if !ok { return; }
      if config.recordsLimit > 0 { ok := TrimToLastNCalls(config.recordsLimit, o); }
    }

    method AddAudio(a: Audio, o: Outcome) returns (ok: bool)
      modifies this
      ensures (State(), ok) == AddAudioSpec(old(State()), a, o)
    {
      if |a.wav| == 0 { return true; }
      var id;
      if a.streamId in streamMap {
        id := streamMap[a.streamId];
      } else if a.streamId.endpoint in endpointMap {
        id := endpointMap[a.streamId.endpoint];
      } else {
        return true;
      }
      if !o.insert { return false; }
      db := db.(audio := db.audio + [AudioRow(id, a.startMs, a.finishMs, a.wav, a.streamId.endpoint)]);
      ok := true;
    }

    method PurgeStream(id: StreamId, o: Outcome) returns (ok: bool)
      modifies this
      ensures (State(), ok) == PurgeSpec(old(State()), id, o)
    {
      if id !in streamMap { return true; }
      if !o.delete { return false; }
      var n := streamMap[id];
      db := DeleteStreamsByIds(db, [n]);
      assert Elems([n]) == {n};
      streamMap := streamMap - {id};
      endpointMap := endpointMap - {id.endpoint};
      ok := true;
    }

    /** Keeps the N most recently ended calls and evicts the streams of all others. */
    method TrimToLastNCalls(n: int, o: Outcome) returns (ok: bool)
      modifies this
      ensures (State(), ok) == TrimSpec(old(State()), n, o)
    {
      if n <= 0 { return true; }
      if !o.query { return false; }
      var keys := QueryRanking(db);
      DescendingDistinct(db, keys);
      ElemsOfDistinct(keys);
      assert keys[..|keys|] == keys;
      if |keys| <= n { return true; }
      EvictedIsTail(db, keys, n);
      var ids := ResolveStreams(db, keys[n..]);
      if !o.delete { return false; }
      db := DeleteStreamsByIds(db, ids);
      ForgetDbIds(ids);
      ok := true;
    }

    /** The streams of the evicted calls, asked for in batches. */
    static method ResolveStreams(db: Database, evict: seq<string>) returns (ids: seq<int>)
      ensures Elems(ids) == StreamsOfCalls(db, Elems(evict))
    {
      ids := [];
      var start := 0;
      while start < |evict|
        invariant 0 <= start <= |evict|
        invariant Elems(ids) == StreamsOfCalls(db, Elems(evict[..start]))
      {
        var end := if start + DELETE_BATCH > |evict| then |evict| else start + DELETE_BATCH;
        var more := QueryStreams(db, evict[start..end]);
        assert evict[..end] == evict[..start] + evict[start..end];
        assert Elems(ids + more) == Elems(ids) + Elems(more);
        ids := ids + more;
        start := end;
      }
      assert evict[..start] == evict;
    }

    /** Drops the given row ids from both maps. */
    method ForgetDbIds(ids: seq<int>)
      modifies this`streamMap, this`endpointMap
      ensures State() == Forgotten(old(State()), Elems(ids))
    {
      var gone := Elems(ids);
      ghost var st, targets := State(), MappedTo(streamMap, gone);
      var left := streamMap.Keys;
      ghost var done: set<StreamId> := {};
      RemovedNone(st);
      while left != {}
        invariant done <= targets && left <= st.streamMap.Keys && left !! done && targets <= left + done
        invariant State() == Removed(st, done)
        decreases |left|
      {
        var k :| k in left;
        if streamMap[k] in gone {
          RemovedOne(st, done, k);
          streamMap := streamMap - {k};
          endpointMap := endpointMap - {k.endpoint};
          done := done + {k};
        }
        left := left - {k};
      }
      assert done == targets;
    }
  }

  function StreamsOfCalls(db: Database, keys: set<string>): set<int> {
    set id | id in db.streams && CallKey(id, db.streams[id]) in keys
  }

  /** The store with some identities, and their endpoints, forgotten. */
  function Removed(st: Store, keys: set<StreamId>): Store {
    st.(streamMap := st.streamMap - keys, endpointMap := st.endpointMap - EndpointsOf(keys))
  }

  lemma RemovedNone(st: Store)
    ensures Removed(st, {}) == st
  {
    assert EndpointsOf({}) == {};
    assert st.streamMap - {} == st.streamMap && st.endpointMap - {} == st.endpointMap;
  }

  lemma RemovedOne(st: Store, keys: set<StreamId>, k: StreamId)
    ensures Removed(st, keys + {k})
            == st.(streamMap := st.streamMap - keys - {k},
                   endpointMap := st.endpointMap - EndpointsOf(keys) - {k.endpoint})
  {
    assert EndpointsOf(keys + {k}) == EndpointsOf(keys) + {k.endpoint};
    assert st.streamMap - (keys + {k}) == st.streamMap - keys - {k};
    assert st.endpointMap - (EndpointsOf(keys) + {k.endpoint}) == st.endpointMap - EndpointsOf(keys) - {k.endpoint};
  }
}

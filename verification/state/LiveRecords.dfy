/** The record of an active stream beside the database row of the final report that would be made up for it. */
module LiveRecords {
  import opened Results
  import opened Texts
  import opened Tables
  import opened Registry
  import opened FilterLexer
  import opened FilterParser
  import opened FilterEvaluate
  import opened FilterSql
  import opened FilterMeaning
  import opened FilterColumns
  import W = Writer

  /** An agent's id and name: what the daemon is configured with, or what the instances table holds. */
  datatype Agent = Agent(id: string, name: string)

  predicate HasValue(env: Record, field: string, v: Value) {
    field in env && env[field] == v
  }

  predicate HasCell(base: Row, column: string, v: SqlValue) {
    column in base && base[column] == v
  }

  function FigureOrZero(x: Option<real>): Value {
    Real(if x.Some? then x.value else 0.0)
  }

  function FigureOrNull(x: Option<real>): SqlValue {
    if x.Some? then SqlReal(x.value) else Null
  }

  function TextOrNull(x: Option<string>): SqlValue {
    if x.Some? then SqlText(x.value) else Null
  }

  /** The share of silence in memory: 0 as long as no packet interval was counted. */
  function SilenceRatio(rec: LiveRecord, h: Host): real {
    if rec.dtxTotal == 0 then 0.0
    else h.round(RealOp(Div, h.round((rec.dtxSid + rec.dtxCount) as real), h.round(rec.dtxTotal as real)))
  }

  predicate RecordTimes(env: Record, rec: LiveRecord, h: Host) {
    && HasValue(env, "start_time", Int(TruncDiv(rec.streamStart, 1000)))
    && HasValue(env, "duration", Int(rec.durationMs))
    && HasValue(env, "silence_ratio", Real(SilenceRatio(rec, h)))
    && HasValue(env, "duration_audio", Int(rec.durationAudio))
  }

  predicate RecordFigures(env: Record, q: Quality) {
    && HasValue(env, "sevana_mos", FigureOrZero(q.sevanaMos))
    && HasValue(env, "network_mos", FigureOrZero(q.networkMos))
    && HasValue(env, "sevana_rfactor", Int(q.rfactor))
    && HasValue(env, "jitter", Real(q.jitter))
    && HasValue(env, "rtt_delay", Real(q.rttDelay))
  }

  predicate RecordAddresses(env: Record, e: Endpoint) {
    && HasValue(env, "src_ip", Str(e.srcIp))
    && HasValue(env, "src_port", Int(e.srcPort))
    && HasValue(env, "dst_ip", Str(e.dstIp))
    && HasValue(env, "dst_port", Int(e.dstPort))
    && HasValue(env, "ssrc", Str(FormatInt(e.ssrc)))
  }

  predicate RecordCalls(env: Record, sip: Sip, agent: Agent) {
    && HasValue(env, "sip_src", Str(sip.peerA))
    && HasValue(env, "sip_dst", Str(sip.peerB))
    && HasValue(env, "sip_callid", Str(sip.callId))
    && HasValue(env, "instance_id", Str(agent.id))
    && HasValue(env, "instance_name", Str(agent.name))
  }

  /** The fields filters see of an active stream. */
  predicate IsRecordOf(env: Record, rec: LiveRecord, id: StreamId, agent: Agent, h: Host) {
    && RecordTimes(env, rec, h) && RecordFigures(env, rec.quality)
    && RecordAddresses(env, id.endpoint) && RecordCalls(env, rec.sip, agent)
  }

  function RecordOf(rec: LiveRecord, id: StreamId, agent: Agent, h: Host): Record {
    map[
      "start_time" := Int(TruncDiv(rec.streamStart, 1000)), "duration" := Int(rec.durationMs),
      "silence_ratio" := Real(SilenceRatio(rec, h)), "duration_audio" := Int(rec.durationAudio),
      "sevana_mos" := FigureOrZero(rec.quality.sevanaMos), "network_mos" := FigureOrZero(rec.quality.networkMos),
      "sevana_rfactor" := Int(rec.quality.rfactor), "jitter" := Real(rec.quality.jitter),
      "rtt_delay" := Real(rec.quality.rttDelay), "src_ip" := Str(id.endpoint.srcIp),
      "src_port" := Int(id.endpoint.srcPort), "dst_ip" := Str(id.endpoint.dstIp),
      "dst_port" := Int(id.endpoint.dstPort), "ssrc" := Str(FormatInt(id.endpoint.ssrc)),
      "sip_src" := Str(rec.sip.peerA), "sip_dst" := Str(rec.sip.peerB), "sip_callid" := Str(rec.sip.callId),
      "instance_id" := Str(agent.id), "instance_name" := Str(agent.name)]
  }

  lemma IsRecordTimes(rec: LiveRecord, id: StreamId, agent: Agent, h: Host)
    ensures RecordTimes(RecordOf(rec, id, agent, h), rec, h)
  {
  }

  lemma IsRecordFigures(rec: LiveRecord, id: StreamId, agent: Agent, h: Host)
    ensures RecordFigures(RecordOf(rec, id, agent, h), rec.quality)
  {
  }

  lemma IsRecordAddresses(rec: LiveRecord, id: StreamId, agent: Agent, h: Host)
    ensures RecordAddresses(RecordOf(rec, id, agent, h), id.endpoint)
  {
  }

  lemma IsRecordCalls(rec: LiveRecord, id: StreamId, agent: Agent, h: Host)
    ensures RecordCalls(RecordOf(rec, id, agent, h), rec.sip, agent)
  {
  }

  lemma RecordOfIs(rec: LiveRecord, id: StreamId, agent: Agent, h: Host)
    ensures IsRecordOf(RecordOf(rec, id, agent, h), rec, id, agent, h)
  {
    IsRecordTimes(rec, id, agent, h);
    IsRecordFigures(rec, id, agent, h);
    IsRecordAddresses(rec, id, agent, h);
    IsRecordCalls(rec, id, agent, h);
  }

  predicate RowTimes(base: Row, r: Report) {
    && HasCell(base, START, SqlInt(r.startMs))
    && HasCell(base, END, SqlInt(r.endMs))
    && HasCell(base, DTX_SID, SqlInt(r.counters.dtxSid))
    && HasCell(base, DTX_COUNT, SqlInt(r.counters.dtxCount))
    && HasCell(base, DTX_TOTAL, SqlInt(r.counters.dtxTotal))
    && HasCell(base, "rtpmon_statistics.duration_audio", SqlInt(r.counters.durationAudio))
  }

  predicate RowFigures(base: Row, q: Quality) {
    && HasCell(base, "rtpmon_statistics.sevana_mos", FigureOrNull(q.sevanaMos))
    && HasCell(base, "rtpmon_statistics.network_mos", FigureOrNull(q.networkMos))
    && HasCell(base, "rtpmon_statistics.sevana_rfactor", SqlInt(q.rfactor))
    && HasCell(base, "rtpmon_statistics.jitter", SqlReal(q.jitter))
    && HasCell(base, "rtpmon_statistics.rtt_delay", SqlReal(q.rttDelay))
  }

  predicate RowAddresses(base: Row, e: Endpoint) {
    && HasCell(base, "rtpmon_streams.src_ip", SqlText(e.srcIp))
    && HasCell(base, "rtpmon_streams.src_port", SqlInt(e.srcPort))
    && HasCell(base, "rtpmon_streams.dst_ip", SqlText(e.dstIp))
    && HasCell(base, "rtpmon_streams.dst_port", SqlInt(e.dstPort))
    && HasCell(base, "rtpmon_streams.ssrc", SqlInt(e.ssrc))
  }

  predicate RowCalls(base: Row, s: StreamRow, agent: Agent) {
    && HasCell(base, "rtpmon_streams.sip_source", TextOrNull(s.source))
    && HasCell(base, "rtpmon_streams.sip_destination", TextOrNull(s.destination))
    && HasCell(base, "rtpmon_streams.sip_callid", TextOrNull(s.callId))
    && HasCell(base, "rtpmon_instances.agent_id", SqlText(agent.id))
    && HasCell(base, "rtpmon_instances.agent_name", SqlText(agent.name))
  }

  /** The joined row of a statistics report, its stream and its agent. */
  predicate IsRowOf(base: Row, r: Report, s: StreamRow, agent: Agent) {
    && RowTimes(base, r) && RowFigures(base, r.quality)
    && RowAddresses(base, s.id.endpoint) && RowCalls(base, s, agent)
  }

  function RowOf(r: Report, s: StreamRow, agent: Agent): Row {
    map[
      START := SqlInt(r.startMs), END := SqlInt(r.endMs), DTX_SID := SqlInt(r.counters.dtxSid),
      DTX_COUNT := SqlInt(r.counters.dtxCount), DTX_TOTAL := SqlInt(r.counters.dtxTotal),
      "rtpmon_statistics.duration_audio" := SqlInt(r.counters.durationAudio),
      "rtpmon_statistics.sevana_mos" := FigureOrNull(r.quality.sevanaMos),
      "rtpmon_statistics.network_mos" := FigureOrNull(r.quality.networkMos),
      "rtpmon_statistics.sevana_rfactor" := SqlInt(r.quality.rfactor),
      "rtpmon_statistics.jitter" := SqlReal(r.quality.jitter),
      "rtpmon_statistics.rtt_delay" := SqlReal(r.quality.rttDelay),
      "rtpmon_streams.src_ip" := SqlText(s.id.endpoint.srcIp),
      "rtpmon_streams.src_port" := SqlInt(s.id.endpoint.srcPort),
      "rtpmon_streams.dst_ip" := SqlText(s.id.endpoint.dstIp),
      "rtpmon_streams.dst_port" := SqlInt(s.id.endpoint.dstPort),
      "rtpmon_streams.ssrc" := SqlInt(s.id.endpoint.ssrc), "rtpmon_streams.sip_source" := TextOrNull(s.source),
      "rtpmon_streams.sip_destination" := TextOrNull(s.destination),
      "rtpmon_streams.sip_callid" := TextOrNull(s.callId), "rtpmon_instances.agent_id" := SqlText(agent.id),
      "rtpmon_instances.agent_name" := SqlText(agent.name)]
  }

  lemma IsRowTimes(r: Report, s: StreamRow, agent: Agent)
    ensures RowTimes(RowOf(r, s, agent), r)
  {
  }

  lemma IsRowFigures(r: Report, s: StreamRow, agent: Agent)
    ensures RowFigures(RowOf(r, s, agent), r.quality)
  {
  }

  lemma IsRowAddresses(r: Report, s: StreamRow, agent: Agent)
    ensures RowAddresses(RowOf(r, s, agent), s.id.endpoint)
  {
  }

  lemma IsRowCalls(r: Report, s: StreamRow, agent: Agent)
    ensures RowCalls(RowOf(r, s, agent), s, agent)
  {
  }

  lemma RowOfIs(r: Report, s: StreamRow, agent: Agent)
    ensures IsRowOf(RowOf(r, s, agent), r, s, agent)
  {
    IsRowTimes(r, s, agent);
    IsRowFigures(r, s, agent);
    IsRowAddresses(r, s, agent);
    IsRowCalls(r, s, agent);
  }

  predicate SameAt(field: string, env: Record, base: Row, columns: Columns, h: Host) {
    field in columns && field in env && ValueOf(columns[field], base, h).0 == Stored(env[field])
  }

  /** An active stream, the record made of it, and the row its made-up final would have in the database. */
  datatype Pair = Pair(
    entry: Entry, rec: LiveRecord, stream: StreamRow, agent: Agent, known: Agent,
    env: Record, base: Row, columns: Columns, h: Host)
  {
    ghost predicate Valid() {
      && entry.reports != [] && IsLive(entry, rec) && stream.id == entry.streamId && known.id == agent.id
      && IsRecordOf(env, rec, entry.streamId, agent, h) && IsRowOf(base, FinalOf(entry), stream, known)
      && IsNameMap(columns) && Faithful(h)
      && IsInt64(FinalOf(entry).startMs) && IsInt64(FinalOf(entry).endMs - FinalOf(entry).startMs)
      && Small(rec.dtxSid + rec.dtxCount) && Small(rec.dtxTotal)
    }

    /** The field's SQL expression gives the record's value. */
    ghost predicate Same(field: string) {
      SameAt(field, env, base, columns, h)
    }
  }

  /** Every active stream with reports, within the ranges, makes such a pair. */
  lemma MakesPair(
    entry: Entry, rec: LiveRecord, stream: StreamRow, agent: Agent, known: Agent, h: Host) returns (p: Pair)
    requires entry.reports != [] && IsLive(entry, rec) && stream.id == entry.streamId && known.id == agent.id
            && Faithful(h)
    requires IsInt64(FinalOf(entry).startMs) && IsInt64(FinalOf(entry).endMs - FinalOf(entry).startMs)
    requires Small(rec.dtxSid + rec.dtxCount) && Small(rec.dtxTotal)
    ensures p == Pair(entry, rec, stream, agent, known, RecordOf(rec, entry.streamId, agent, h),
                      RowOf(FinalOf(entry), stream, known), NAME_MAP, h)
    ensures p.Valid()
  {
    p := Pair(entry, rec, stream, agent, known, RecordOf(rec, entry.streamId, agent, h),
              RowOf(FinalOf(entry), stream, known), NAME_MAP, h);
    RecordOfIs(rec, entry.streamId, agent, h);
    RowOfIs(FinalOf(entry), stream, known);
    NameMapIs();
  }

  lemma CellAgrees(
    field: string, column: string, v: SqlValue, w: Value, env: Record, base: Row, columns: Columns, h: Host)
    requires Maps(columns, field, Col(column)) && HasCell(base, column, v) && HasValue(env, field, w)
    ensures SameAt(field, env, base, columns, h) <==> v == Stored(w)
  {
    ColIs(column, base, v, h);
  }

  lemma StartAgrees(columns: Columns, env: Record, base: Row, h: Host, whole: int, start: int)
    requires Maps(columns, "start_time", START_SECONDS) && HasValue(env, "start_time", Int(TruncDiv(whole, 1000)))
    requires HasCell(base, START, SqlInt(start)) && IsInt64(start)
    ensures ValueOf(columns["start_time"], base, h).0 == Stored(env["start_time"])
            <==> TruncDiv(whole, 1000) == TruncDiv(start, 1000)
  {
    StartSecondsIs(base, start, h);
  }

  lemma DurationAgrees(columns: Columns, env: Record, base: Row, h: Host, length: int, start: int, end: int)
    requires Maps(columns, "duration", DURATION) && HasValue(env, "duration", Int(length))
    requires HasCell(base, START, SqlInt(start)) && HasCell(base, END, SqlInt(end)) && IsInt64(end - start)
    ensures ValueOf(columns["duration"], base, h).0 == Stored(env["duration"]) <==> length == end - start
  {
    DurationIs(base, start, end, h);
  }

  /** Both sides divide in floating point, unless there is nothing to divide by. */
  lemma SameRatio(rec: LiveRecord, h: Host)
    requires Faithful(h) && Small(rec.dtxTotal)
    ensures var packets := SqlReal(h.round((rec.dtxSid + rec.dtxCount) as real));
            SqlArith(Div, packets, if rec.dtxTotal == 0 then Null else SqlInt(rec.dtxTotal), h)
            == if rec.dtxTotal == 0 then Null else SqlReal(SilenceRatio(rec, h))
  {
    assert h.round(rec.dtxTotal as real) == rec.dtxTotal as real;
  }

  lemma SilenceAgrees(columns: Columns, env: Record, base: Row, h: Host, rec: LiveRecord)
    requires Maps(columns, "silence_ratio", SILENCE_RATIO) && HasValue(env, "silence_ratio", Real(SilenceRatio(rec, h)))
    requires HasCell(base, DTX_SID, SqlInt(rec.dtxSid)) && HasCell(base, DTX_COUNT, SqlInt(rec.dtxCount))
    requires HasCell(base, DTX_TOTAL, SqlInt(rec.dtxTotal))
    requires Faithful(h) && Small(rec.dtxSid + rec.dtxCount) && Small(rec.dtxTotal)
    ensures ValueOf(columns["silence_ratio"], base, h).0 == Stored(env["silence_ratio"]) <==> rec.dtxTotal > 0
  {
    SilenceRatioIs(base, rec.dtxSid, rec.dtxCount, rec.dtxTotal, h);
    SameRatio(rec, h);
  }

  lemma FiguresAgree(q: Quality, env: Record, base: Row, columns: Columns, h: Host)
    requires MapsFigures(columns) && RecordFigures(env, q) && RowFigures(base, q)
    ensures SameAt("sevana_rfactor", env, base, columns, h) && SameAt("jitter", env, base, columns, h)
    ensures SameAt("rtt_delay", env, base, columns, h)
    ensures SameAt("sevana_mos", env, base, columns, h) <==> q.sevanaMos.Some?
    ensures SameAt("network_mos", env, base, columns, h) <==> q.networkMos.Some?
  {
    CellAgrees("sevana_rfactor", "rtpmon_statistics.sevana_rfactor", SqlInt(q.rfactor), Int(q.rfactor),
               env, base, columns, h);
    CellAgrees("jitter", "rtpmon_statistics.jitter", SqlReal(q.jitter), Real(q.jitter), env, base, columns, h);
    CellAgrees("rtt_delay", "rtpmon_statistics.rtt_delay", SqlReal(q.rttDelay), Real(q.rttDelay),
               env, base, columns, h);
    FigureAgrees("sevana_mos", "rtpmon_statistics.sevana_mos", q.sevanaMos, env, base, columns, h);
    FigureAgrees("network_mos", "rtpmon_statistics.network_mos", q.networkMos, env, base, columns, h);
  }

  lemma FigureAgrees(
    field: string, column: string, x: Option<real>, env: Record, base: Row, columns: Columns, h: Host)
    requires Maps(columns, field, Col(column)) && HasCell(base, column, FigureOrNull(x))
    requires HasValue(env, field, FigureOrZero(x))
    ensures SameAt(field, env, base, columns, h) <==> x.Some?
  {
    CellAgrees(field, column, FigureOrNull(x), FigureOrZero(x), env, base, columns, h);
  }

  lemma AddressesAgree(e: Endpoint, env: Record, base: Row, columns: Columns, h: Host)
    requires MapsAddresses(columns) && RecordAddresses(env, e) && RowAddresses(base, e)
    ensures SameAt("src_ip", env, base, columns, h) && SameAt("src_port", env, base, columns, h)
    ensures SameAt("dst_ip", env, base, columns, h) && SameAt("dst_port", env, base, columns, h)
    ensures !SameAt("ssrc", env, base, columns, h)
  {
    CellAgrees("src_ip", "rtpmon_streams.src_ip", SqlText(e.srcIp), Str(e.srcIp), env, base, columns, h);
    CellAgrees("src_port", "rtpmon_streams.src_port", SqlInt(e.srcPort), Int(e.srcPort), env, base, columns, h);
    CellAgrees("dst_ip", "rtpmon_streams.dst_ip", SqlText(e.dstIp), Str(e.dstIp), env, base, columns, h);
    CellAgrees("dst_port", "rtpmon_streams.dst_port", SqlInt(e.dstPort), Int(e.dstPort), env, base, columns, h);
    CellAgrees("ssrc", "rtpmon_streams.ssrc", SqlInt(e.ssrc), Str(FormatInt(e.ssrc)), env, base, columns, h);
  }

  lemma CorrelationAgrees(
    sip: Sip, agent: Agent, s: StreamRow, known: Agent, env: Record, base: Row, columns: Columns, h: Host)
    requires MapsCalls(columns) && RecordCalls(env, sip, agent) && RowCalls(base, s, known)
    ensures SameAt("sip_src", env, base, columns, h) <==> s.source == Some(sip.peerA)
    ensures SameAt("sip_dst", env, base, columns, h) <==> s.destination == Some(sip.peerB)
    ensures SameAt("sip_callid", env, base, columns, h) <==> s.callId == Some(sip.callId)
    ensures SameAt("instance_id", env, base, columns, h) <==> known.id == agent.id
    ensures SameAt("instance_name", env, base, columns, h) <==> known.name == agent.name
  {
    CellAgrees("sip_src", "rtpmon_streams.sip_source", TextOrNull(s.source), Str(sip.peerA), env, base, columns, h);
    CellAgrees("sip_dst", "rtpmon_streams.sip_destination", TextOrNull(s.destination), Str(sip.peerB),
               env, base, columns, h);
    CellAgrees("sip_callid", "rtpmon_streams.sip_callid", TextOrNull(s.callId), Str(sip.callId), env, base, columns, h);
    CellAgrees("instance_id", "rtpmon_instances.agent_id", SqlText(known.id), Str(agent.id), env, base, columns, h);
    CellAgrees("instance_name", "rtpmon_instances.agent_name", SqlText(known.name), Str(agent.name),
               env, base, columns, h);
  }

  lemma TimesAgree(rec: LiveRecord, f: Report, env: Record, base: Row, columns: Columns, h: Host)
    requires MapsTimes(columns) && RecordTimes(env, rec, h) && RowTimes(base, f) && Faithful(h)
    requires rec.dtxSid == f.counters.dtxSid && rec.dtxCount == f.counters.dtxCount
    requires rec.dtxTotal == f.counters.dtxTotal && rec.durationAudio == f.counters.durationAudio
    requires IsInt64(f.startMs) && IsInt64(f.endMs - f.startMs)
    requires Small(rec.dtxSid + rec.dtxCount) && Small(rec.dtxTotal)
    ensures SameAt("start_time", env, base, columns, h)
            <==> TruncDiv(rec.streamStart, 1000) == TruncDiv(f.startMs, 1000)
    ensures SameAt("duration", env, base, columns, h) <==> rec.durationMs == f.endMs - f.startMs
    ensures SameAt("silence_ratio", env, base, columns, h) <==> rec.dtxTotal > 0
    ensures SameAt("duration_audio", env, base, columns, h)
  {
    StartAgrees(columns, env, base, h, rec.streamStart, f.startMs);
    DurationAgrees(columns, env, base, h, rec.durationMs, f.startMs, f.endMs);
    SilenceAgrees(columns, env, base, h, rec);
    var audio := rec.durationAudio;
    CellAgrees("duration_audio", "rtpmon_statistics.duration_audio", SqlInt(audio), Int(audio), env, base, columns, h);
  }

  /**
   Where a live record and the row of its made-up final agree. Figures and addresses always; ssrc, a text here and
   a number there, never; a MOS when it was measured and the silence ratio when anything was counted; start and
   duration when the stream's start and its first report's give the same; SIP fields when the stream's row has the
   last report's; the agent's name when it has not changed.
  */
  lemma FieldsThatAgree(p: Pair)
    requires p.Valid()
    ensures p.Same("sevana_rfactor") && p.Same("jitter") && p.Same("rtt_delay") && p.Same("duration_audio")
    ensures p.Same("src_ip") && p.Same("src_port") && p.Same("dst_ip") && p.Same("dst_port") && p.Same("instance_id")
    ensures !p.Same("ssrc")
    ensures p.Same("sevana_mos") <==> p.rec.quality.sevanaMos.Some?
    ensures p.Same("network_mos") <==> p.rec.quality.networkMos.Some?
    ensures p.Same("silence_ratio") <==> p.rec.dtxTotal > 0
    ensures p.Same("start_time") <==> TruncDiv(p.rec.streamStart, 1000) == TruncDiv(FinalOf(p.entry).startMs, 1000)
    ensures p.Same("duration") <==> p.rec.durationMs == FinalOf(p.entry).endMs - FinalOf(p.entry).startMs
    ensures p.Same("sip_src") <==> p.stream.source == Some(p.rec.sip.peerA)
    ensures p.Same("sip_dst") <==> p.stream.destination == Some(p.rec.sip.peerB)
    ensures p.Same("sip_callid") <==> p.stream.callId == Some(p.rec.sip.callId)
    ensures p.Same("instance_name") <==> p.known.name == p.agent.name
  {
    FiguresAgree(p.rec.quality, p.env, p.base, p.columns, p.h);
    AddressesAgree(p.entry.streamId.endpoint, p.env, p.base, p.columns, p.h);
    CorrelationAgrees(p.rec.sip, p.agent, p.stream, p.known, p.env, p.base, p.columns, p.h);
    TimesAgree(p.rec, FinalOf(p.entry), p.env, p.base, p.columns, p.h);
  }

  /** A filter that reads only fields that agree keeps the live record iff it runs and its SQL selects the row. */
  lemma LiveFilterAgrees(e: Node, p: Pair)
    requires p.Valid() && Knows(p.columns, e) && Portable(e, p.env, p.h) && IsCondition(e, p.env)
    requires forall field :: field in FieldsRead(e, p.env, p.h) && field in p.env ==> p.Same(field)
    ensures Keeps(e, p.env, p.h) <==> Runs(e, p.env, p.h) && SelectsBase(e, p.base, p.columns, p.h)
  {
    NameMapReadsOneWay(p.columns);
    KeepsIffSelectsBase(e, p.env, p.base, p.columns, p.h);
  }

  /** Storing a report with a Call-ID makes the stream's row agree with it on the SIP fields. */
  lemma StoredSip(cfg: W.Config, st: W.Store, r: Report, now: int, o: W.Outcome)
    requires r.sip.callId != "" && W.AddIntervalSpec(cfg, st, r, now, o).1
    requires !(W.FilterActive(cfg) && W.HasSip(r) && !W.SipMatches(cfg, r))
    requires r.streamId in st.streamMap ==> st.streamMap[r.streamId] in st.db.streams
    ensures var after := W.AddIntervalSpec(cfg, st, r, now, o).0;
            && r.streamId in after.streamMap && after.streamMap[r.streamId] in after.db.streams
            && var row := after.db.streams[after.streamMap[r.streamId]];
               row.callId == Some(r.sip.callId) && row.source == Some(r.sip.peerA)
                   && row.destination == Some(r.sip.peerB)
  {
  }
}

/** The registry of active streams: reports gathered per stream until it finishes or is given up on. */
module Registry {
  import opened Lists
  import opened Results
  import opened Tables

  datatype Entry = Entry(streamId: StreamId, reports: seq<Report>, order: int, lastSeenMs: int)

  datatype Registry = Registry(
    streams: map<StreamId, Entry>, order: int, started: int, finished: int, lastUptime: Option<nat>)

  const EMPTY: Registry := Registry(map[], 0, 0, 0, None)

  // ----- sums over reports -----

  const ZERO: Counters := Counters(0, 0, 0, 0, 0, 0, 0, 0, 0)

  function AddCounters(a: Counters, b: Counters): Counters {
    Counters(a.rtp + b.rtp, a.illegal + b.illegal, a.lost + b.lost,
             a.durationAudio + b.durationAudio, a.amrNb + b.amrNb, a.amrWb + b.amrWb,
             a.dtxSid + b.dtxSid, a.dtxCount + b.dtxCount, a.dtxTotal + b.dtxTotal)
  }

  function SumCounters(rs: seq<Report>): Counters {
    if rs == [] then ZERO else AddCounters(SumCounters(rs[..|rs| - 1]), rs[|rs| - 1].counters)
  }

  lemma SumAppend(rs: seq<Report>, r: Report)
    ensures SumCounters(rs + [r]) == AddCounters(SumCounters(rs), r.counters)
  {
    FrontOfAppend(rs, r);
  }

  lemma AddAssociative(a: Counters, b: Counters, c: Counters)
    ensures AddCounters(AddCounters(a, b), c) == AddCounters(a, AddCounters(b, c))
    ensures AddCounters(a, ZERO) == a
  {
  }

  lemma {:induction false} SumConcat(a: seq<Report>, b: seq<Report>)
    ensures SumCounters(a + b) == AddCounters(SumCounters(a), SumCounters(b))
  {
    if b == [] {
      ConcatNothing(a);
      AddAssociative(SumCounters(a), ZERO, ZERO);
    } else {
      var front, last := b[..|b| - 1], b[|b| - 1];
      SumConcat(a, front);
      LastOfConcat(a, b);
      SumAppend(a + front, last);
      AddAssociative(SumCounters(a), SumCounters(front), last.counters);
    }
  }

  function TotalOf(rs: seq<Report>, figure: Report -> int): int {
    if rs == [] then 0 else TotalOf(rs[..|rs| - 1], figure) + figure(rs[|rs| - 1])
  }

  /** Every counter of the sum is the sum of that counter. */
  lemma {:induction false} CountersSum(rs: seq<Report>)
    ensures SumCounters(rs).rtp == TotalOf(rs, (r: Report) => r.counters.rtp)
    ensures SumCounters(rs).illegal == TotalOf(rs, (r: Report) => r.counters.illegal)
    ensures SumCounters(rs).lost == TotalOf(rs, (r: Report) => r.counters.lost)
    ensures SumCounters(rs).durationAudio == TotalOf(rs, (r: Report) => r.counters.durationAudio)
    ensures SumCounters(rs).amrNb == TotalOf(rs, (r: Report) => r.counters.amrNb)
    ensures SumCounters(rs).amrWb == TotalOf(rs, (r: Report) => r.counters.amrWb)
    ensures SumCounters(rs).dtxSid == TotalOf(rs, (r: Report) => r.counters.dtxSid)
    ensures SumCounters(rs).dtxCount == TotalOf(rs, (r: Report) => r.counters.dtxCount)
    ensures SumCounters(rs).dtxTotal == TotalOf(rs, (r: Report) => r.counters.dtxTotal)
  {
    if rs != [] { CountersSum(rs[..|rs| - 1]); }
  }

  // ----- what is read off an entry -----

  /** The final report made up for a stream whose own never came: sums of all reports, the rest from the last. */
  function FinalOf(e: Entry): (f: Report)
    requires e.reports != []
  {
    var first, last := e.reports[0], e.reports[|e.reports| - 1];
    Report(e.streamId, first.startMs, last.endMs, 0, SumCounters(e.reports), last.quality, true,
           if last.userReport == "" then "auto-finalized" else last.userReport, last.sip)
  }

  /** The reports of a stream come in the order of their times. */
  predicate InTime(a: Report, b: Report) {
    a.startMs <= b.startMs && a.endMs <= b.endMs
  }

  /** A made-up final spans all its reports and passes on the quality and peers of the last. */
  lemma FinalSpans(e: Entry)
    requires e.reports != []
    requires forall i, j :: 0 <= i <= j < |e.reports| ==> InTime(e.reports[i], e.reports[j])
    ensures var f, rs := FinalOf(e), e.reports;
            && (forall i :: 0 <= i < |rs| ==> f.startMs <= rs[i].startMs && rs[i].endMs <= f.endMs)
            && (exists i, j :: 0 <= i < |rs| && 0 <= j < |rs| && f.startMs == rs[i].startMs && f.endMs == rs[j].endMs)
            && f.streamId == e.streamId && f.fullReport && f.userReport != ""
            && f.quality == rs[|rs| - 1].quality && f.sip == rs[|rs| - 1].sip
            && (rs[|rs| - 1].userReport != "" ==> f.userReport == rs[|rs| - 1].userReport)
  {
    var rs := e.reports;
    forall i | 0 <= i < |rs| ensures FinalOf(e).startMs <= rs[i].startMs && rs[i].endMs <= FinalOf(e).endMs {
      assert InTime(rs[0], rs[i]) && InTime(rs[i], rs[|rs| - 1]);
    }
    assert FinalOf(e).startMs == rs[0].startMs && FinalOf(e).endMs == rs[|rs| - 1].endMs;
  }

  /** The live record of an active stream, as far as it is computed from the reports. */
  datatype LiveRecord = LiveRecord(
    streamStart: int, durationMs: int, quality: Quality, sip: Sip,
    rtp: nat, lost: nat, durationAudio: int, dtxSid: nat, dtxCount: nat, dtxTotal: nat,
    detectorReports: seq<string>)

  function DetectorReports(rs: seq<Report>): (texts: seq<string>)
    ensures |texts| == |rs| && forall i :: 0 <= i < |rs| ==> texts[i] == rs[i].quality.detectorReport
  {
    seq(|rs|, i requires 0 <= i < |rs| => rs[i].quality.detectorReport)
  }

  method SynthesizeFinal(e: Entry) returns (f: Report)
    requires e.reports != []
    ensures f == FinalOf(e)
  {
    var reports := e.reports;
    var first, last := reports[0], reports[|reports| - 1];
    var sum := ZERO;
    for i := 0 to |reports|
      invariant sum == SumCounters(reports[..i])
    {
      var c := reports[i].counters;
      assert reports[..i + 1][..i] == reports[..i];
      sum := Counters(sum.rtp + c.rtp, sum.illegal + c.illegal, sum.lost + c.lost,
                      sum.durationAudio + c.durationAudio, sum.amrNb + c.amrNb, sum.amrWb + c.amrWb,
                      sum.dtxSid + c.dtxSid, sum.dtxCount + c.dtxCount, sum.dtxTotal + c.dtxTotal);
    }
    assert reports[..|reports|] == reports;
    var userReport := last.userReport;
    if userReport == "" { userReport := "auto-finalized"; }
    f := Report(e.streamId, first.startMs, last.endMs, 0, sum, last.quality, true, userReport, last.sip);
  }

  /** The record agrees with the final that would be made up now; start and duration are those of the whole stream. */
  predicate IsLive(e: Entry, rec: LiveRecord)
    requires e.reports != []
  {
    var f, first := FinalOf(e), e.reports[0];
    && rec.rtp == f.counters.rtp && rec.lost == f.counters.lost
    && rec.durationAudio == f.counters.durationAudio
    && rec.dtxSid == f.counters.dtxSid && rec.dtxCount == f.counters.dtxCount
    && rec.dtxTotal == f.counters.dtxTotal
    && rec.quality == f.quality && rec.sip == f.sip
    && rec.streamStart == (if first.startStreamMs == 0 then f.startMs else first.startStreamMs)
    && rec.durationMs == (if f.endMs < rec.streamStart then 0 else f.endMs - rec.streamStart)
    && rec.detectorReports == DetectorReports(e.reports)
  }

  method MakeRecord(e: Entry) returns (rec: LiveRecord)
    requires e.reports != []
    ensures IsLive(e, rec)
  {
    var first, last := e.reports[0], e.reports[|e.reports| - 1];
    var streamStart := first.startStreamMs;
    if streamStart == 0 { streamStart := first.startMs; }
    var durationMs := last.endMs - streamStart;
    if durationMs < 0 { durationMs := 0; }
    var dtxSid, dtxCount, dtxTotal, durationAudio, rtp, lost := 0, 0, 0, 0, 0, 0;
    var texts: seq<string> := [];
    for i := 0 to |e.reports|
      invariant |texts| == i && forall j :: 0 <= j < i ==> texts[j] == e.reports[j].quality.detectorReport
      invariant var s := SumCounters(e.reports[..i]);
                && dtxSid == s.dtxSid && dtxCount == s.dtxCount && dtxTotal == s.dtxTotal
                && durationAudio == s.durationAudio && rtp == s.rtp && lost == s.lost
    {
      var rp := e.reports[i];
      PrefixNext(e.reports, i);
      SumAppend(e.reports[..i], rp);
      dtxSid, dtxCount, dtxTotal :=
        dtxSid + rp.counters.dtxSid, dtxCount + rp.counters.dtxCount, dtxTotal + rp.counters.dtxTotal;
      durationAudio := durationAudio + rp.counters.durationAudio;
      rtp, lost := rtp + rp.counters.rtp, lost + rp.counters.lost;
      texts := texts + [rp.quality.detectorReport];
    }
    assert e.reports[..|e.reports|] == e.reports;
    rec := LiveRecord(streamStart, durationMs, last.quality, last.sip, rtp, lost, durationAudio,
                      dtxSid, dtxCount, dtxTotal, texts);
  }

  // ----- the operations on values -----

  function Detect(g: Registry, id: StreamId, now: int): Registry {
    var g1 := g.(started := g.started + 1, order := g.order + 1);
    if id in g.streams then g1 else g1.(streams := g.streams[id := Entry(id, [], g.order + 1, now)])
  }

  function Note(g: Registry, r: Report, now: int): Registry {
    if r.streamId in g.streams then
      var e := g.streams[r.streamId];
      g.(streams := g.streams[r.streamId := e.(reports := e.reports + [r], lastSeenMs := now)])
    else
      g.(order := g.order + 1,
         streams := g.streams[r.streamId := Entry(r.streamId, [r], g.order + 1, now)])
  }

  function Finish(g: Registry, id: StreamId): Registry {
    g.(finished := g.finished + 1, streams := g.streams - {id})
  }

  function RestartSeen(g: Registry, uptime: nat): bool {
    g.lastUptime.Some? && uptime < g.lastUptime.value
  }

  /** The streams not heard from for at least `idleMs`. */
  function Stale(g: Registry, idleMs: int, now: int): set<StreamId> {
    StaleOf(g.streams, g.streams.Keys, idleMs, now)
  }

  ghost predicate IsEarliest(m: map<StreamId, Entry>, s: set<StreamId>, k: StreamId)
    requires s <= m.Keys
  {
    k in s && forall j :: j in s ==> m[k].order <= m[j].order
  }

  lemma {:induction false} EarliestExists(m: map<StreamId, Entry>, s: set<StreamId>) returns (k: StreamId)
    requires s <= m.Keys && s != {}
    ensures IsEarliest(m, s, k)
    decreases |s|
  {
    var x :| x in s;
    if s == {x} { return x; }
    k := EarliestExists(m, s - {x});
    if m[x].order < m[k].order { k := x; }
  }

  /** Identities of `s` in the order their streams were first seen. */
  ghost function InOrder(m: map<StreamId, Entry>, s: set<StreamId>): (ids: seq<StreamId>)
    requires s <= m.Keys
    ensures |ids| == |s| && Elems(ids) == s
    decreases |s|
  {
    if s == {} then []
    else
      assert exists k :: IsEarliest(m, s, k) by { var k := EarliestExists(m, s); assert IsEarliest(m, s, k); }
      var k :| IsEarliest(m, s, k);
      assert Elems([k] + InOrder(m, s - {k})) == {k} + Elems(InOrder(m, s - {k}));
      [k] + InOrder(m, s - {k})
  }

  /** `a` was first seen before `b`. */
  predicate Sooner(m: map<StreamId, Entry>, a: StreamId, b: StreamId) {
    a in m && b in m && m[a].order < m[b].order
  }

  ghost predicate Ascending(m: map<StreamId, Entry>, ids: seq<StreamId>) {
    && (forall i {:trigger ids[i] in m} :: 0 <= i < |ids| ==> ids[i] in m)
    && forall i, j {:trigger Sooner(m, ids[i], ids[j])} :: 0 <= i < j < |ids| ==> Sooner(m, ids[i], ids[j])
  }

  ghost predicate DistinctOrders(m: map<StreamId, Entry>) {
    forall a, b :: a in m && b in m && a != b ==> m[a].order != m[b].order
  }

  lemma AscendingTail(m: map<StreamId, Entry>, ids: seq<StreamId>)
    requires Ascending(m, ids) && ids != []
    ensures Ascending(m, ids[1..]) && ids[0] !in ids[1..] && Elems(ids[1..]) == Elems(ids) - {ids[0]}
    ensures forall k :: k in ids[1..] ==> Sooner(m, ids[0], k)
  {
    var rest := ids[1..];
    forall i | 0 <= i < |rest| ensures rest[i] in m && Sooner(m, ids[0], rest[i]) {
      assert ids[i + 1] in m && Sooner(m, ids[0], ids[i + 1]);
    }
    forall i, j | 0 <= i < j < |rest| ensures Sooner(m, rest[i], rest[j]) {
      assert Sooner(m, ids[i + 1], ids[j + 1]);
    }
    assert ids == [ids[0]] + rest;
  }

  /** With distinct order numbers, only one list has the members of `s` in ascending order. */
  lemma {:induction false} AscendingIsInOrder(m: map<StreamId, Entry>, s: set<StreamId>, ids: seq<StreamId>)
    requires s <= m.Keys && DistinctOrders(m) && Elems(ids) == s && Ascending(m, ids)
    ensures ids == InOrder(m, s)
    decreases |s|
  {
    if ids != [] {
      AscendingTail(m, ids);
      assert ids[0] in Elems(ids);
      var first := InOrder(m, s)[0];
      assert first in Elems(InOrder(m, s));
      assert first in ids && m[first].order <= m[ids[0]].order;
      assert first == ids[0] by { assert ids == [ids[0]] + ids[1..]; }
      AscendingIsInOrder(m, s - {ids[0]}, ids[1..]);
    }
  }

  /** The finals made up for the listed streams: one for each that has a report. */
  ghost function FinalsOf(m: map<StreamId, Entry>, ids: seq<StreamId>): seq<Report>
    requires Elems(ids) <= m.Keys
  {
    if ids == [] then []
    else
      assert ids[|ids| - 1] in Elems(ids) && Elems(ids[..|ids| - 1]) <= Elems(ids);
      var front, e := FinalsOf(m, ids[..|ids| - 1]), m[ids[|ids| - 1]];
      if e.reports == [] then front else front + [FinalOf(e)]
  }

  /** Gives up on the streams `s`: they leave the registry, finalised in order of first sight. */
  ghost function Evict(g: Registry, s: set<StreamId>): (Registry, seq<Report>)
    requires s <= g.streams.Keys
  {
    EvictList(g, InOrder(g.streams, s))
  }

  // ----- the object -----

  /** Every entry is under its own identity and has an order number of its own. */
  ghost predicate WellFormed(g: Registry) {
    && (forall id :: id in g.streams ==> g.streams[id].streamId == id && g.streams[id].order <= g.order)
    && DistinctOrders(g.streams)
    && (forall id, i :: id in g.streams && 0 <= i < |g.streams[id].reports| ==> g.streams[id].reports[i].streamId == id)
  }

  class ActiveStreamRegistry {
    var streams: map<StreamId, Entry>
    var order: int
    var started: int
    var finished: int
    var lastUptime: Option<nat>

    ghost function State(): Registry
      reads this
    {
      Registry(streams, order, started, finished, lastUptime)
    }

    ghost predicate Valid()
      reads this
    {
      WellFormed(State())
    }

    constructor ()
      ensures Valid() && State() == EMPTY
    {
      streams, order, started, finished, lastUptime := map[], 0, 0, 0, None;
    }

    method OnStreamDetected(id: StreamId, now: int)
      requires Valid()
      modifies this
      ensures Valid() && State() == Detect(old(State()), id, now)
    {
      started := started + 1;
      order := order + 1;
      if id !in streams { streams := streams[id := Entry(id, [], order, now)]; }
    }

    method OnReport(r: Report, now: int)
      requires Valid()
      modifies this
      ensures Valid() && State() == Note(old(State()), r, now)
    {
      var e;
      if r.streamId in streams {
        e := streams[r.streamId];
      } else {
        order := order + 1;
        e := Entry(r.streamId, [], order, now);
      }
      assert [] + [r] == [r];
      e := e.(reports := e.reports + [r]);
      e := e.(lastSeenMs := now);
      streams := streams[r.streamId := e];
      NoteWellFormed(old(State()), r, now);
    }

    method OnFinished(r: Report)
      requires Valid()
      modifies this
      ensures Valid() && State() == Finish(old(State()), r.streamId)
    {
      finished := finished + 1;
      streams := streams - {r.streamId};
    }

    method NoteUptime(uptime: nat) returns (restarted: bool)
      requires Valid()
      modifies this`lastUptime
      ensures Valid() && State() == old(State()).(lastUptime := Some(uptime))
      ensures restarted == RestartSeen(old(State()), uptime)
    {
      restarted := lastUptime.Some? && uptime < lastUptime.value;
      lastUptime := Some(uptime);
    }

    method SweepGhostsAt(idleMs: int, now: int) returns (finals: seq<Report>)
      requires Valid()
      modifies this
      ensures Valid() && (State(), finals) == Evict(old(State()), Stale(old(State()), idleMs, now))
    {
      var ordered := OrderedEntries(streams);
      var stale := SelectStale(streams, ordered, idleMs, now);
      AscendingMembers(streams, stale);
      EvictListed(State(), stale);
      finals := EvictLocked(stale);
    }

    static method SelectStale(m: map<StreamId, Entry>, ordered: seq<StreamId>, idleMs: int, now: int)
      returns (stale: seq<StreamId>)
      requires Ascending(m, ordered)
      ensures Ascending(m, stale) && Elems(stale) == StaleOf(m, Elems(ordered), idleMs, now)
    {
      stale := [];
      for i := 0 to |ordered|
        invariant Ascending(m, stale)
        invariant Elems(stale) == StaleOf(m, Elems(ordered[..i]), idleMs, now)
      {
        AllSooner(m, ordered, i);
        if now - m[ordered[i]].lastSeenMs >= idleMs {
          AscendingAppend(m, stale, ordered[i]);
          stale := stale + [ordered[i]];
        }
      }
      assert ordered[..|ordered|] == ordered;
    }

    method DrainAll() returns (finals: seq<Report>)
      requires Valid()
      modifies this
      ensures Valid() && (State(), finals) == Evict(old(State()), old(streams).Keys)
    {
      var ordered := OrderedEntries(streams);
      EvictListed(State(), ordered);
      finals := EvictLocked(ordered);
    }

    /** Takes the listed streams out of the registry and makes up finals for those with reports. */
    method EvictLocked(ids: seq<StreamId>) returns (finals: seq<Report>)
      requires Valid() && Ascending(streams, ids) && Elems(ids) <= streams.Keys
      modifies this
      ensures Valid() && (State(), finals) == EvictList(old(State()), ids)
    {
      EvictWellFormed(State(), ids);
      var left;
      left, finals := EvictFrom(streams, ids);
      streams := left;
      finished := finished + |ids|;
    }

    /** The identities in order of first sight. */
    static method OrderedEntries(m: map<StreamId, Entry>) returns (ids: seq<StreamId>)
      requires DistinctOrders(m)
      ensures Elems(ids) == m.Keys && Ascending(m, ids)
    {
      ids := [];
      var left := m.Keys;
      while left != {}
        invariant left <= m.Keys && Elems(ids) == m.Keys - left && Ascending(m, ids)
        invariant forall k, l :: k in Elems(ids) && l in left ==> Sooner(m, k, l)
        decreases |left|
      {
        ghost var earliest := EarliestExists(m, left);
        assert IsEarliest(m, left, earliest);
        var k :| k in left && forall j :: j in left ==> m[k].order <= m[j].order;
        AscendingAppend(m, ids, k);
        forall l | l in left - {k} ensures Sooner(m, k, l) { assert m[k].order != m[l].order; }
        ids := ids + [k];
        left := left - {k};
      }
    }

    static method EvictFrom(m: map<StreamId, Entry>, ids: seq<StreamId>)
      returns (left: map<StreamId, Entry>, finals: seq<Report>)
      requires Ascending(m, ids)
      ensures Elems(ids) <= m.Keys && left == m - Elems(ids) && finals == FinalsOf(m, ids)
    {
      left, finals := m, [];
      assert m - Elems(ids[..0]) == m;
      for i := 0 to |ids|
        invariant Elems(ids[..i]) <= m.Keys
        invariant left == m - Elems(ids[..i]) && finals == FinalsOf(m, ids[..i])
      {
        TakeOne(m, ids, i);
        var e := left[ids[i]];
        left := left - {ids[i]};
        if |e.reports| > 0 {
          var f := SynthesizeFinal(e);
          finals := finals + [f];
        }
      }
      assert ids[..|ids|] == ids;
    }
  }

  /** The members of `s` not heard from for at least `idleMs`. */
  function StaleOf(m: map<StreamId, Entry>, s: set<StreamId>, idleMs: int, now: int): set<StreamId> {
    set id | id in s && id in m && now - m[id].lastSeenMs >= idleMs
  }

  lemma AllSooner(m: map<StreamId, Entry>, ids: seq<StreamId>, i: nat)
    requires Ascending(m, ids) && i < |ids|
    ensures ids[i] in m && ids[i] !in Elems(ids[..i])
    ensures Elems(ids[..i + 1]) == Elems(ids[..i]) + {ids[i]} && Elems(ids[..i + 1]) <= m.Keys
    ensures forall k :: k in Elems(ids[..i]) ==> Sooner(m, k, ids[i])
  {
    assert ids[i] in m;
    assert ids[..i + 1] == ids[..i] + [ids[i]];
    forall k | k in Elems(ids[..i]) ensures Sooner(m, k, ids[i]) {
      var j :| 0 <= j < i && ids[..i][j] == k;
      assert Sooner(m, ids[j], ids[i]);
    }
  }

  lemma TakeOne(m: map<StreamId, Entry>, ids: seq<StreamId>, i: nat)
    requires Ascending(m, ids) && i < |ids|
    ensures ids[i] in m && ids[i] !in Elems(ids[..i]) && Elems(ids[..i + 1]) <= m.Keys
    ensures Elems(ids[..i + 1]) == Elems(ids[..i]) + {ids[i]}
    ensures m - Elems(ids[..i + 1]) == m - Elems(ids[..i]) - {ids[i]}
    ensures FinalsOf(m, ids[..i + 1])
            == FinalsOf(m, ids[..i]) + (if m[ids[i]].reports == [] then [] else [FinalOf(m[ids[i]])])
  {
    AllSooner(m, ids, i);
    assert ids[..i + 1][..i] == ids[..i];
  }

  lemma AscendingAppend(m: map<StreamId, Entry>, ids: seq<StreamId>, k: StreamId)
    requires Ascending(m, ids) && k in m && forall j :: j in Elems(ids) ==> Sooner(m, j, k)
    ensures Elems(ids + [k]) == Elems(ids) + {k} && Ascending(m, ids + [k])
  {
    var all := ids + [k];
    forall i | 0 <= i < |all| ensures all[i] in m { assert i < |ids| ==> ids[i] in m; }
    forall i, j | 0 <= i < j < |all| ensures Sooner(m, all[i], all[j]) {
      if j < |ids| { assert Sooner(m, ids[i], ids[j]); } else { assert ids[i] in Elems(ids); }
    }
  }

  lemma AscendingMembers(m: map<StreamId, Entry>, ids: seq<StreamId>)
    requires Ascending(m, ids)
    ensures Elems(ids) <= m.Keys
  {
    forall k | k in Elems(ids) ensures k in m {
      var i :| 0 <= i < |ids| && ids[i] == k;
      assert ids[i] in m;
    }
  }

  /** What evicting the streams of an ordered list does. */
  ghost function EvictList(g: Registry, ids: seq<StreamId>): (Registry, seq<Report>)
    requires Elems(ids) <= g.streams.Keys
  {
    (g.(streams := g.streams - Elems(ids), finished := g.finished + |ids|), FinalsOf(g.streams, ids))
  }

  lemma EvictListed(g: Registry, ids: seq<StreamId>)
    requires WellFormed(g) && Ascending(g.streams, ids) && Elems(ids) <= g.streams.Keys
    ensures Evict(g, Elems(ids)) == EvictList(g, ids)
  {
    AscendingIsInOrder(g.streams, Elems(ids), ids);
  }

  lemma EvictWellFormed(g: Registry, ids: seq<StreamId>)
    requires WellFormed(g) && Elems(ids) <= g.streams.Keys
    ensures WellFormed(EvictList(g, ids).0)
  {
  }

  lemma NoteWellFormed(g: Registry, r: Report, now: int)
    requires WellFormed(g)
    ensures WellFormed(Note(g, r, now))
  {
  }
}

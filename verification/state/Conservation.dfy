/** Report conservation: over any run, no interval report is lost, counted twice or moved to another stream. */
module Conservation {
  import opened Lists
  import opened Results
  import opened Tables
  import opened Registry

  datatype Event =
    | Detected(id: StreamId, now: int)
    | Reported(report: Report, now: int)
    | Finished(report: Report)
    | Swept(idleMs: int, now: int)
    | Drained
    | UptimeNoted(seconds: nat)

  /** The registry after an event, and the finals the event makes up. */
  ghost function Step(g: Registry, e: Event): (Registry, seq<Report>) {
    match e
    case Detected(id, now) => (Detect(g, id, now), [])
    case Reported(r, now) => (Note(g, r, now), [])
    case Finished(r) => (Finish(g, r.streamId), [])
    case Swept(idleMs, now) => Evict(g, Stale(g, idleMs, now))
    case Drained => Evict(g, g.streams.Keys)
    case UptimeNoted(seconds) => (g.(lastUptime := Some(seconds)), [])
  }

  ghost function Run(es: seq<Event>): Registry {
    if es == [] then EMPTY else Step(Run(es[..|es| - 1]), es[|es| - 1]).0
  }

  /** All finals made up in a run. */
  ghost function Finals(es: seq<Event>): seq<Report> {
    if es == [] then [] else Finals(es[..|es| - 1]) + Step(Run(es[..|es| - 1]), es[|es| - 1]).1
  }

  function OfStream(rs: seq<Report>, id: StreamId): seq<Report> {
    Filter(rs, (r: Report) => r.streamId == id)
  }

  /** The interval reports of a stream, as they came. */
  function Noted(es: seq<Event>, id: StreamId): seq<Report> {
    if es == [] then []
    else
      var front, e := Noted(es[..|es| - 1], id), es[|es| - 1];
      if e.Reported? && e.report.streamId == id then front + [e.report] else front
  }

  /** The reports held for a stream that is still active. */
  function Held(g: Registry, id: StreamId): seq<Report> {
    if id in g.streams then g.streams[id].reports else []
  }

  /** What the registry held for a stream whenever the stream left it, in order. */
  ghost function GivenUp(es: seq<Event>, id: StreamId): seq<Report> {
    if es == [] then []
    else
      var g, front := Run(es[..|es| - 1]), GivenUp(es[..|es| - 1], id);
      if id !in Run(es).streams then front + Held(g, id) else front
  }

  /** The part of it for which no final was made up. */
  ghost function Discarded(es: seq<Event>, id: StreamId): seq<Report> {
    if es == [] then []
    else
      var g, e, front := Run(es[..|es| - 1]), es[|es| - 1], Discarded(es[..|es| - 1], id);
      if id !in Run(es).streams && OfStream(Step(g, e).1, id) == [] then front + Held(g, id) else front
  }

  /** What the registry held for a stream whenever the stream's own final report came. */
  ghost function FinishedWith(es: seq<Event>, id: StreamId): seq<Report> {
    if es == [] then []
    else
      var front, e := FinishedWith(es[..|es| - 1], id), es[|es| - 1];
      if e.Finished? && e.report.streamId == id then front + Held(Run(es[..|es| - 1]), id) else front
  }

  // ----- one event -----

  lemma StepWellFormed(g: Registry, e: Event)
    requires WellFormed(g)
    ensures WellFormed(Step(g, e).0)
  {
    match e
    case Reported(r, now) => NoteWellFormed(g, r, now);
    case Swept(idleMs, now) => EvictWellFormed(g, InOrder(g.streams, Stale(g, idleMs, now)));
    case Drained => EvictWellFormed(g, InOrder(g.streams, g.streams.Keys));
    case _ =>
  }

  lemma {:induction false} RunWellFormed(es: seq<Event>)
    ensures WellFormed(Run(es))
  {
    if es != [] {
      RunWellFormed(es[..|es| - 1]);
      StepWellFormed(Run(es[..|es| - 1]), es[|es| - 1]);
    }
  }

  lemma OfStreamAppend(rs: seq<Report>, r: Report, id: StreamId)
    ensures OfStream(rs + [r], id) == OfStream(rs, id) + (if r.streamId == id then [r] else [])
  {
    assert (rs + [r])[..|rs|] == rs;
  }

  lemma {:induction false} OfStreamConcat(a: seq<Report>, b: seq<Report>, id: StreamId)
    ensures OfStream(a + b, id) == OfStream(a, id) + OfStream(b, id)
  {
    if b == [] {
      ConcatNothing(a);
      ConcatNothing(OfStream(a, id));
    } else {
      var front, last := b[..|b| - 1], b[|b| - 1];
      OfStreamConcat(a, front, id);
      LastOfConcat(a, b);
      var x, y, z := OfStream(a, id), OfStream(front, id), if last.streamId == id then [last] else [];
      assert OfStream(a + b, id) == (x + y) + z && OfStream(b, id) == y + z;
      Associative(x, y, z);
    }
  }

  /** The finals made up for a list of streams hold one for each stream with reports, its own. */
  lemma {:induction false} OneFinalEach(m: map<StreamId, Entry>, ids: seq<StreamId>, id: StreamId)
    requires Elems(ids) <= m.Keys && forall k :: k in m ==> m[k].streamId == k
    requires forall i, j :: 0 <= i < j < |ids| ==> ids[i] != ids[j]
    ensures OfStream(FinalsOf(m, ids), id)
            == if id in ids && m[id].reports != [] then [FinalOf(m[id])] else []
  {
    if ids != [] {
      var front, k := ids[..|ids| - 1], ids[|ids| - 1];
      assert ids == front + [k];
      assert Elems(front) <= Elems(ids) && k in Elems(ids);
      OneFinalEach(m, front, id);
      if m[k].reports != [] { OfStreamAppend(FinalsOf(m, front), FinalOf(m[k]), id); }
    }
  }

  lemma {:induction false} DistinctMembers(ids: seq<StreamId>)
    requires |Elems(ids)| == |ids|
    ensures forall i, j :: 0 <= i < j < |ids| ==> ids[i] != ids[j]
  {
    if ids != [] {
      var front, k := ids[..|ids| - 1], ids[|ids| - 1];
      assert ids == front + [k];
      assert Elems(ids) == Elems(front) + {k};
      ElemsAtMost(front);
      DistinctMembers(front);
    }
  }

  lemma EvictFinals(g: Registry, s: set<StreamId>, id: StreamId)
    requires WellFormed(g) && s <= g.streams.Keys
    ensures OfStream(Evict(g, s).1, id)
            == if id in s && Held(g, id) != [] then [FinalOf(g.streams[id])] else []
  {
    var ids := InOrder(g.streams, s);
    DistinctMembers(ids);
    OneFinalEach(g.streams, ids, id);
    assert id in ids <==> id in Elems(ids);
  }

  /**
   What one event does to one stream: it stays and may gain one report; or it finishes and its reports
   are dropped; or it is given up on and a final takes its place if it had reports.
  */
  lemma StepOfStream(g: Registry, e: Event, id: StreamId)
    requires WellFormed(g)
    ensures var (g', fs) := Step(g, e);
            if e.Reported? && e.report.streamId == id then Held(g', id) == Held(g, id) + [e.report] && id in g'.streams
            else if id in g'.streams then Held(g', id) == Held(g, id)
            else Held(g', id) == []
    ensures var (g', fs) := Step(g, e);
            OfStream(fs, id) == (if id !in g'.streams && Held(g, id) != [] && !e.Finished?
                                 then [FinalOf(g.streams[id])] else [])
  {
    match e
    case Swept(idleMs, now) => EvictFinals(g, Stale(g, idleMs, now), id);
    case Drained => EvictFinals(g, g.streams.Keys, id);
    case Reported(r, now) => if r.streamId !in g.streams { assert [] + [r] == [r]; }
    case _ =>
  }

  // ----- every run -----

  /** The reports of a stream are, in order, those given up and those still held. */
  lemma {:induction false} ReportsAreKept(es: seq<Event>, id: StreamId)
    ensures Noted(es, id) == GivenUp(es, id) + Held(Run(es), id)
  {
    if es != [] {
      var front, e := es[..|es| - 1], es[|es| - 1];
      ReportsAreKept(front, id);
      RunWellFormed(front);
      StepOfStream(Run(front), e, id);
      var given, held := GivenUp(front, id), Held(Run(front), id);
      assert given + (held + (if e.Reported? then [e.report] else []))
          == given + held + (if e.Reported? then [e.report] else []);
    }
  }

  lemma SumNone(a: Counters)
    ensures AddCounters(a, ZERO) == a && AddCounters(ZERO, a) == a
  {
  }

  /** What one event adds for a stream: to the reports given up, the finals and the discards. */
  ghost function Leaving(g: Registry, e: Event, id: StreamId): seq<Report> {
    if id !in Step(g, e).0.streams then Held(g, id) else []
  }

  ghost function Replaced(g: Registry, e: Event, id: StreamId): seq<Report> {
    OfStream(Step(g, e).1, id)
  }

  ghost function Dropped(g: Registry, e: Event, id: StreamId): seq<Report> {
    if Replaced(g, e, id) == [] then Leaving(g, e, id) else []
  }

  /** The counters of `whole` are those of `a` and `b` together. */
  ghost predicate AddsUp(whole: seq<Report>, a: seq<Report>, b: seq<Report>) {
    SumCounters(whole) == AddCounters(SumCounters(a), SumCounters(b))
  }

  lemma EventAddsUp(g: Registry, e: Event, id: StreamId)
    requires WellFormed(g)
    ensures AddsUp(Leaving(g, e, id), Replaced(g, e, id), Dropped(g, e, id))
  {
    StepOfStream(g, e, id);
    if Replaced(g, e, id) == [] {
      SumNone(SumCounters(Leaving(g, e, id)));
    } else {
      ReplacedSum(g.streams[id]);
      SumNone(SumCounters(Leaving(g, e, id)));
    }
  }

  lemma ReplacedSum(e: Entry)
    requires e.reports != []
    ensures SumCounters([FinalOf(e)]) == SumCounters(e.reports)
  {
    SumOne(FinalOf(e));
  }

  lemma EventParts(es: seq<Event>, id: StreamId)
    requires es != []
    ensures var front, e := es[..|es| - 1], es[|es| - 1];
            && GivenUp(es, id) == GivenUp(front, id) + Leaving(Run(front), e, id)
            && Discarded(es, id) == Discarded(front, id) + Dropped(Run(front), e, id)
            && OfStream(Finals(es), id) == OfStream(Finals(front), id) + Replaced(Run(front), e, id)
  {
    var front, e := es[..|es| - 1], es[|es| - 1];
    OfStreamConcat(Finals(front), Step(Run(front), e).1, id);
  }

  lemma SumsAddUp(a: seq<Report>, b: seq<Report>, c: seq<Report>, a': seq<Report>, b': seq<Report>, c': seq<Report>)
    ensures AddsUp(a, b, c) && AddsUp(a', b', c') ==> AddsUp(a + a', b + b', c + c')
  {
    SumConcat(a, a');
    SumConcat(b, b');
    SumConcat(c, c');
    AddFour(SumCounters(b), SumCounters(c), SumCounters(b'), SumCounters(c'));
  }

  lemma AddFour(a: Counters, b: Counters, c: Counters, d: Counters)
    ensures AddCounters(AddCounters(a, b), AddCounters(c, d)) == AddCounters(AddCounters(a, c), AddCounters(b, d))
  {
  }

  lemma EventKeepsSum(es: seq<Event>, id: StreamId)
    requires es != []
    ensures var front := es[..|es| - 1];
            AddsUp(GivenUp(front, id), OfStream(Finals(front), id), Discarded(front, id)) ==>
              AddsUp(GivenUp(es, id), OfStream(Finals(es), id), Discarded(es, id))
  {
    var front, e := es[..|es| - 1], es[|es| - 1];
    var g := Run(front);
    RunWellFormed(front);
    EventAddsUp(g, e, id);
    SumsAddUp(GivenUp(front, id), OfStream(Finals(front), id), Discarded(front, id),
              Leaving(g, e, id), Replaced(g, e, id), Dropped(g, e, id));
    EventParts(es, id);
  }

  lemma NothingAddsUp(es: seq<Event>, id: StreamId)
    requires es == []
    ensures AddsUp(GivenUp(es, id), OfStream(Finals(es), id), Discarded(es, id))
  {
    assert GivenUp(es, id) == [] && Discarded(es, id) == [];
    assert Finals(es) == [];
    assert OfStream(Finals(es), id) == [];
    SumNone(ZERO);
  }

  /** The finals made up for a stream and its discarded reports add up to what was given up. */
  lemma {:induction false} FinalsAddUp(es: seq<Event>, id: StreamId)
    ensures AddsUp(GivenUp(es, id), OfStream(Finals(es), id), Discarded(es, id))
  {
    if es == [] {
      NothingAddsUp(es, id);
    } else {
      FinalsAddUp(es[..|es| - 1], id);
      EventKeepsSum(es, id);
    }
  }

  lemma SumOne(r: Report)
    ensures SumCounters([r]) == r.counters
  {
    assert [r][..0] == [];
  }

  /** Counters are conserved: every counter of every report is in one final, one discard, or still held. */
  lemma CountersConserved(es: seq<Event>, id: StreamId)
    ensures SumCounters(Noted(es, id))
            == AddCounters(AddCounters(SumCounters(OfStream(Finals(es), id)), SumCounters(Discarded(es, id))),
                           SumCounters(Held(Run(es), id)))
  {
    ReportsAreKept(es, id);
    FinalsAddUp(es, id);
    SumConcat(GivenUp(es, id), Held(Run(es), id));
  }

  /** Reports are discarded only by the stream's own finish. */
  lemma {:induction false} OnlyFinishDiscards(es: seq<Event>, id: StreamId)
    requires forall e :: e in es ==> !(e.Finished? && e.report.streamId == id)
    ensures Discarded(es, id) == []
  {
    if es != [] {
      var front, e := es[..|es| - 1], es[|es| - 1];
      OnlyFinishDiscards(front, id);
      RunWellFormed(front);
      StepOfStream(Run(front), e, id);
      assert e in es;
    }
  }

  /** What is discarded is exactly what a finish of the stream found. */
  lemma {:induction false} DiscardedIsFinished(es: seq<Event>, id: StreamId)
    ensures Discarded(es, id) == FinishedWith(es, id)
  {
    if es != [] {
      var front, e := es[..|es| - 1], es[|es| - 1];
      DiscardedIsFinished(front, id);
      RunWellFormed(front);
      StepOfStream(Run(front), e, id);
      if e.Finished? { FinishLeaves(Run(front), e, id); }
    }
  }

  lemma FinishLeaves(g: Registry, e: Event, id: StreamId)
    requires e.Finished?
    ensures Step(g, e).1 == [] && (e.report.streamId == id ==> id !in Step(g, e).0.streams)
    ensures e.report.streamId != id ==> (id in Step(g, e).0.streams <==> id in g.streams)
  {
  }
}

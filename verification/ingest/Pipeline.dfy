/**
 The ingest pipeline and the ghost sweeper: both run on the goroutine that owns the writer, drive writer
 and registry together, and write the finals made up for streams that are given up on.
*/
module Pipeline {
  import opened Lists
  import opened Results
  import opened Tables
  import opened Writer
  import W = WriterRuns
  import opened Registry
  import opened Conservation

  /** What arrives, with the clock readings and database outcomes each event meets. */
  datatype BusEvent =
    | StreamStart(id: StreamId, now: int, outcome: Outcome)
    | StreamReport(report: Report, now: int, outcome: Outcome)
    | AudioChunk(audio: Audio, outcome: Outcome)
    | Statistics(uptime: nat, now: int, outcomes: nat -> Outcome)
    | Idle(tick: int, now: int, outcomes: nat -> Outcome)

  /** The registry and when the next ghost sweep is due; None before the first. */
  datatype Control = Control(registry: Registry, nextAt: Option<int>)

  /** Idle timeout of a stream and the time between two ghost sweeps. */
  datatype Sweeping = Sweeping(idleMs: int, interval: int)

  // ----- the operations on values -----

  /** Writes the first `n` of some finals; failures are logged and do not stop the rest. */
  function WriteFinals(cfg: Config, st: Store, fs: seq<Report>, now: int, os: nat -> Outcome, n: nat): Store
    requires n <= |fs|
  {
    if n == 0 then st else AddFinalSpec(cfg, WriteFinals(cfg, st, fs, now, os, n - 1), fs[n - 1], now, os(n - 1)).0
  }

  predicate SweepDue(c: Control, tick: int) {
    c.nextAt.None? || tick >= c.nextAt.value
  }

  /** The registry's part of an event, and the finals it makes up; no database outcome enters here. */
  ghost function ControlStep(sw: Sweeping, c: Control, e: BusEvent): (Control, seq<Report>) {
    match e
    case StreamStart(id, now, _) => (c.(registry := Detect(c.registry, id, now)), [])
    case StreamReport(r, now, _) =>
      (c.(registry := if r.fullReport then Finish(c.registry, r.streamId) else Note(c.registry, r, now)), [])
    case AudioChunk(_, _) => (c, [])
    case Statistics(uptime, _, _) =>
      var noted := c.registry.(lastUptime := Some(uptime));
      if !RestartSeen(c.registry, uptime) then (c.(registry := noted), [])
      else
        var (g, fs) := Evict(noted, noted.streams.Keys);
        (c.(registry := g), fs)
    case Idle(tick, now, _) =>
      if !SweepDue(c, tick) then (c, [])
      else
        var (g, fs) := Evict(c.registry, Stale(c.registry, sw.idleMs, now));
        (Control(g, Some(tick + sw.interval)), fs)
  }

  /** The writer's part of an event that makes up the finals `fs`. */
  function StoreStep(cfg: Config, st: Store, e: BusEvent, fs: seq<Report>): Store {
    match e
    case StreamStart(id, now, o) => OpenStreamSpec(st, id, now, o.opening).0
    case StreamReport(r, now, o) =>
      if r.fullReport then AddFinalSpec(cfg, st, r, now, o).0 else AddIntervalSpec(cfg, st, r, now, o).0
    case AudioChunk(a, o) => AddAudioSpec(st, a, o).0
    case Statistics(_, now, os) => WriteFinals(cfg, st, fs, now, os, |fs|)
    case Idle(_, now, os) => WriteFinals(cfg, st, fs, now, os, |fs|)
  }

  lemma SweepStep(sw: Sweeping, c: Control, tick: int, now: int, os: nat -> Outcome)
    requires SweepDue(c, tick)
    ensures var (g, fs) := Evict(c.registry, Stale(c.registry, sw.idleMs, now));
            ControlStep(sw, c, Idle(tick, now, os)) == (Control(g, Some(tick + sw.interval)), fs)
  {
  }

  const START: Control := Control(EMPTY, None)

  ghost function RunControl(sw: Sweeping, es: seq<BusEvent>): Control {
    if es == [] then START else ControlStep(sw, RunControl(sw, es[..|es| - 1]), es[|es| - 1]).0
  }

  /** The finals the last event of a run makes up. */
  ghost function LastMadeUp(sw: Sweeping, es: seq<BusEvent>): seq<Report>
    requires es != []
  {
    ControlStep(sw, RunControl(sw, es[..|es| - 1]), es[|es| - 1]).1
  }

  /** All finals made up in a run. */
  ghost function MadeUp(sw: Sweeping, es: seq<BusEvent>): seq<Report> {
    if es == [] then [] else MadeUp(sw, es[..|es| - 1]) + LastMadeUp(sw, es)
  }

  ghost function RunStore(cfg: Config, sw: Sweeping, st: Store, es: seq<BusEvent>): Store {
    if es == [] then st
    else StoreStep(cfg, RunStore(cfg, sw, st, es[..|es| - 1]), es[|es| - 1], LastMadeUp(sw, es))
  }

  function FullReports(es: seq<BusEvent>): nat {
    if es == [] then 0
    else
      var e := es[|es| - 1];
      FullReports(es[..|es| - 1]) + (if e.StreamReport? && e.report.fullReport then 1 else 0)
  }

  /** The interval reports dispatched for a stream. */
  function Intervals(es: seq<BusEvent>, id: StreamId): seq<Report> {
    if es == [] then []
    else
      var front, e := Intervals(es[..|es| - 1], id), es[|es| - 1];
      if e.StreamReport? && !e.report.fullReport && e.report.streamId == id then front + [e.report] else front
  }

  // ----- every final report is one row -----

  predicate NoFault(o: Outcome) {
    o.opening.Opens? && o.insert && o.sipUpdate
  }

  ghost predicate EventSucceeds(e: BusEvent) {
    match e
    case StreamReport(_, _, o) => NoFault(o)
    case Statistics(_, _, os) => forall i: nat {:trigger os(i)} :: NoFault(os(i))
    case Idle(_, _, os) => forall i: nat {:trigger os(i)} :: NoFault(os(i))
    case _ => true
  }

  predicate KeepsAll(cfg: Config) {
    cfg.recordsLimit <= 0 && cfg.sipFilter == []
  }

  lemma FinalAddsRow(cfg: Config, st: Store, r: Report, now: int, o: Outcome)
    requires KeepsAll(cfg) && NoFault(o)
    ensures |AddFinalSpec(cfg, st, r, now, o).0.db.statistics| == |st.db.statistics| + 1
  {
  }

  /** The statistics rows after the first n finals. */
  function RowsAfter(cfg: Config, st: Store, fs: seq<Report>, now: int, os: nat -> Outcome, n: nat): nat
    requires n <= |fs|
  {
    |WriteFinals(cfg, st, fs, now, os, n).db.statistics|
  }

  lemma FirstRows(cfg: Config, st: Store, fs: seq<Report>, now: int, os: nat -> Outcome)
    ensures RowsAfter(cfg, st, fs, now, os, 0) == |st.db.statistics|
  {
  }

  lemma OneMoreRow(cfg: Config, st: Store, fs: seq<Report>, now: int, os: nat -> Outcome, n: nat)
    requires KeepsAll(cfg) && 0 < n <= |fs| && NoFault(os(n - 1))
    ensures RowsAfter(cfg, st, fs, now, os, n) == RowsAfter(cfg, st, fs, now, os, n - 1) + 1
  {
    var mid := WriteFinals(cfg, st, fs, now, os, n - 1);
    FinalAddsRow(cfg, mid, fs[n - 1], now, os(n - 1));
    assert WriteFinals(cfg, st, fs, now, os, n) == AddFinalSpec(cfg, mid, fs[n - 1], now, os(n - 1)).0;
  }

  lemma {:induction false} FinalsAddRows(cfg: Config, st: Store, fs: seq<Report>, now: int, os: nat -> Outcome, n: nat)
    requires KeepsAll(cfg) && n <= |fs| && forall i: nat {:trigger os(i)} :: NoFault(os(i))
    ensures RowsAfter(cfg, st, fs, now, os, n) == |st.db.statistics| + n
  {
    if n == 0 {
      FirstRows(cfg, st, fs, now, os);
    } else {
      FinalsAddRows(cfg, st, fs, now, os, n - 1);
      OneMoreRow(cfg, st, fs, now, os, n);
    }
  }

  lemma IntervalAddsNone(cfg: Config, st: Store, r: Report, now: int, o: Outcome)
    ensures AddIntervalSpec(cfg, st, r, now, o).0.db.statistics == st.db.statistics
  {
  }

  predicate MakesUpNone(e: BusEvent) {
    e.StreamStart? || e.StreamReport? || e.AudioChunk?
  }

  lemma EventAddsRows(cfg: Config, st: Store, e: BusEvent, fs: seq<Report>)
    requires KeepsAll(cfg) && EventSucceeds(e) && (MakesUpNone(e) ==> fs == [])
    ensures |StoreStep(cfg, st, e, fs).db.statistics|
            == |st.db.statistics| + |fs| + (if e.StreamReport? && e.report.fullReport then 1 else 0)
  {
    match e
    case StreamReport(r, now, o) =>
      if r.fullReport { FinalAddsRow(cfg, st, r, now, o); } else { IntervalAddsNone(cfg, st, r, now, o); }
    case Statistics(_, now, os) => FinalsAddRows(cfg, st, fs, now, os, |fs|);
    case Idle(_, now, os) => FinalsAddRows(cfg, st, fs, now, os, |fs|);
    case _ =>
  }

  /** Without faults, filter and limit: one statistics row per full report and per final made up. */
  lemma {:induction false} RowsCounted(cfg: Config, sw: Sweeping, st: Store, es: seq<BusEvent>)
    requires KeepsAll(cfg) && forall e :: e in es ==> EventSucceeds(e)
    ensures |RunStore(cfg, sw, st, es).db.statistics|
            == |st.db.statistics| + FullReports(es) + |MadeUp(sw, es)|
  {
    if es != [] {
      var front, e := es[..|es| - 1], es[|es| - 1];
      RowsCounted(cfg, sw, st, front);
      assert e in es;
      EventAddsRows(cfg, RunStore(cfg, sw, st, front), e, LastMadeUp(sw, es));
    }
  }

  // ----- the writer inside the pipeline -----

  /** The first n finals as operations of the writer. */
  function FinalOps(fs: seq<Report>, now: int, os: nat -> Outcome, n: nat): seq<W.Op>
    requires n <= |fs|
  {
    if n == 0 then [] else FinalOps(fs, now, os, n - 1) + [W.FinalOp(fs[n - 1], now, os(n - 1))]
  }

  /** What an event that makes up the finals fs asks of the writer. */
  function Asked(e: BusEvent, fs: seq<Report>): seq<W.Op> {
    match e
    case StreamStart(id, now, o) => [W.OpenOp(id, now, o.opening)]
    case StreamReport(r, now, o) => [if r.fullReport then W.FinalOp(r, now, o) else W.IntervalOp(r, now, o)]
    case AudioChunk(a, o) => [W.AudioOp(a, o)]
    case Statistics(_, now, os) => FinalOps(fs, now, os, |fs|)
    case Idle(_, now, os) => FinalOps(fs, now, os, |fs|)
  }

  /** What a run of the pipeline asks of the writer, made-up finals included. */
  ghost function AllAsked(sw: Sweeping, es: seq<BusEvent>): seq<W.Op> {
    if es == [] then [] else AllAsked(sw, es[..|es| - 1]) + Asked(es[|es| - 1], LastMadeUp(sw, es))
  }

  lemma {:induction false} FinalOpsRun(cfg: Config, st: Store, fs: seq<Report>, now: int, os: nat -> Outcome, n: nat)
    requires n <= |fs|
    ensures W.Run(cfg, st, FinalOps(fs, now, os, n)) == WriteFinals(cfg, st, fs, now, os, n)
  {
    if n > 0 {
      FinalOpsRun(cfg, st, fs, now, os, n - 1);
      FrontOfAppend(FinalOps(fs, now, os, n - 1), W.FinalOp(fs[n - 1], now, os(n - 1)));
    }
  }

  lemma RunOfOne(cfg: Config, st: Store, op: W.Op)
    ensures W.Run(cfg, st, [op]) == W.Step(cfg, st, op)
  {
    assert [op][..0] == [];
  }

  lemma AskedRuns(cfg: Config, st: Store, e: BusEvent, fs: seq<Report>)
    ensures W.Run(cfg, st, Asked(e, fs)) == StoreStep(cfg, st, e, fs)
  {
    match e
    case StreamStart(id, now, o) => RunOfOne(cfg, st, W.OpenOp(id, now, o.opening));
    case StreamReport(r, now, o) =>
      RunOfOne(cfg, st, if r.fullReport then W.FinalOp(r, now, o) else W.IntervalOp(r, now, o));
    case AudioChunk(a, o) => RunOfOne(cfg, st, W.AudioOp(a, o));
    case Statistics(_, now, os) => FinalOpsRun(cfg, st, fs, now, os, |fs|);
    case Idle(_, now, os) => FinalOpsRun(cfg, st, fs, now, os, |fs|);
  }

  /** The writer's part of a run is a run of the writer. */
  lemma {:induction false} StoreRuns(cfg: Config, sw: Sweeping, st: Store, es: seq<BusEvent>)
    ensures RunStore(cfg, sw, st, es) == W.Run(cfg, st, AllAsked(sw, es))
  {
    if es != [] {
      var front, e := es[..|es| - 1], es[|es| - 1];
      StoreRuns(cfg, sw, st, front);
      AskedRuns(cfg, RunStore(cfg, sw, st, front), e, LastMadeUp(sw, es));
      W.RunConcat(cfg, st, AllAsked(sw, front), Asked(e, LastMadeUp(sw, es)));
    }
  }

  /** So maps and tables stay consistent over every run of the pipeline, drains and sweeps included. */
  lemma PipelineKeepsConsistent(cfg: Config, sw: Sweeping, st: Store, es: seq<BusEvent>)
    requires W.Consistent(st) && W.RunAllowed(cfg, st, AllAsked(sw, es))
    ensures W.Consistent(RunStore(cfg, sw, st, es))
  {
    StoreRuns(cfg, sw, st, es);
    W.RunKeepsConsistent(cfg, st, AllAsked(sw, es));
  }

  /** And with a store filter every final stored, made up or not, has matching peers. */
  lemma PipelineRetains(cfg: Config, sw: Sweeping, st: Store, es: seq<BusEvent>, r: ReportRow)
    requires FilterActive(cfg) && r in RunStore(cfg, sw, st, es).db.statistics
    ensures r in st.db.statistics || SipMatches(cfg, r.report)
  {
    StoreRuns(cfg, sw, st, es);
    W.OnlyMatchingFinals(cfg, st, AllAsked(sw, es), r);
  }

  // ----- when sweeps and drains come -----

  /** The tick of the last ghost sweep: the first idle tick sweeps, and then each one an interval after the last. */
  function LastSweep(sw: Sweeping, es: seq<BusEvent>): Option<int> {
    if es == [] then None
    else
      var before, e := LastSweep(sw, es[..|es| - 1]), es[|es| - 1];
      if e.Idle? && (before.None? || e.tick - before.value >= sw.interval) then Some(e.tick) else before
  }

  /** The uptime in the last statistics. */
  function LastHeartbeat(es: seq<BusEvent>): Option<nat> {
    if es == [] then None
    else
      var e := es[|es| - 1];
      if e.Statistics? then Some(e.uptime) else LastHeartbeat(es[..|es| - 1])
  }

  lemma {:induction false} ControlKnows(sw: Sweeping, es: seq<BusEvent>)
    ensures var c := RunControl(sw, es);
            && c.registry.lastUptime == LastHeartbeat(es)
            && c.nextAt == match LastSweep(sw, es) case Some(t) => Some(t + sw.interval) case None => None
  {
    if es != [] {
      ControlKnows(sw, es[..|es| - 1]);
      StepKnows(sw, RunControl(sw, es[..|es| - 1]), es[|es| - 1]);
    }
  }

  lemma StepKnows(sw: Sweeping, c: Control, e: BusEvent)
    ensures var d := ControlStep(sw, c, e).0;
            && d.registry.lastUptime == (if e.Statistics? then Some(e.uptime) else c.registry.lastUptime)
            && d.nextAt == if e.Idle? && SweepDue(c, e.tick) then Some(e.tick + sw.interval) else c.nextAt
  {
  }

  /**
   An idle tick sweeps exactly when none has or the last sweep is an interval ago, and statistics drain the registry
   exactly when the uptime is less than in the statistics before.
  */
  lemma SweepsAndDrains(sw: Sweeping, es: seq<BusEvent>, tick: int, now: int, uptime: nat, os: nat -> Outcome)
    ensures var g := RunControl(sw, es).registry;
            var due := LastSweep(sw, es).None? || tick - LastSweep(sw, es).value >= sw.interval;
            var swept := ControlStep(sw, RunControl(sw, es), Idle(tick, now, os));
            if due then (swept.0.registry, swept.1) == Evict(g, Stale(g, sw.idleMs, now))
            else swept.0.registry == g && swept.1 == []
    ensures var g := RunControl(sw, es).registry;
            var fell := LastHeartbeat(es).Some? && uptime < LastHeartbeat(es).value;
            var noted := ControlStep(sw, RunControl(sw, es), BusEvent.Statistics(uptime, now, os));
            if fell then noted.0.registry.streams == map[] else noted.0.registry.streams == g.streams && noted.1 == []
  {
    ControlKnows(sw, es);
  }

  // ----- the registry inside the pipeline -----

  /** What an event means for the registry. */
  ghost function Meaning(sw: Sweeping, c: Control, e: BusEvent): seq<Event> {
    match e
    case StreamStart(id, now, _) => [Detected(id, now)]
    case StreamReport(r, now, _) => if r.fullReport then [Finished(r)] else [Reported(r, now)]
    case AudioChunk(_, _) => []
    case Statistics(uptime, _, _) =>
      [UptimeNoted(uptime)] + (if RestartSeen(c.registry, uptime) then [Drained] else [])
    case Idle(tick, now, _) => if SweepDue(c, tick) then [Swept(sw.idleMs, now)] else []
  }

  /** What a run means for the registry. */
  ghost function Meanings(sw: Sweeping, es: seq<BusEvent>): seq<Event> {
    if es == [] then []
    else
      var front := es[..|es| - 1];
      Meanings(sw, front) + Meaning(sw, RunControl(sw, front), es[|es| - 1])
  }

  lemma RunOne(xs: seq<Event>, x: Event)
    ensures Run(xs + [x]) == Step(Run(xs), x).0
    ensures Finals(xs + [x]) == Finals(xs) + Step(Run(xs), x).1
  {
    FrontOfAppend(xs, x);
  }

  lemma RunTwo(xs: seq<Event>, x: Event, y: Event)
    ensures Run(xs + [x, y]) == Step(Step(Run(xs), x).0, y).0
    ensures Finals(xs + [x, y]) == Finals(xs) + Step(Run(xs), x).1 + Step(Step(Run(xs), x).0, y).1
  {
    RunOne(xs, x);
    RunOne(xs + [x], y);
    ConcatTwo(xs, x, y);
  }

  lemma MeaningRuns(sw: Sweeping, c: Control, e: BusEvent, xs: seq<Event>)
    requires c.registry == Run(xs)
    ensures ControlStep(sw, c, e).0.registry == Run(xs + Meaning(sw, c, e))
    ensures Finals(xs + Meaning(sw, c, e)) == Finals(xs) + ControlStep(sw, c, e).1
  {
    match e
    case StreamStart(_, _, _) => StreamRuns(sw, c, e, xs);
    case StreamReport(_, _, _) => StreamRuns(sw, c, e, xs);
    case AudioChunk(_, _) => NothingRuns(sw, c, e, xs);
    case Statistics(_, _, _) => RestartRuns(sw, c, e, xs);
    case Idle(tick, now, _) => if SweepDue(c, tick) { SweepRuns(sw, c, e, xs); } else { NothingRuns(sw, c, e, xs); }
  }

  lemma StreamRuns(sw: Sweeping, c: Control, e: BusEvent, xs: seq<Event>)
    requires c.registry == Run(xs) && (e.StreamStart? || e.StreamReport?)
    ensures ControlStep(sw, c, e).0.registry == Run(xs + Meaning(sw, c, e))
    ensures Finals(xs + Meaning(sw, c, e)) == Finals(xs) + ControlStep(sw, c, e).1
  {
    var x := if e.StreamStart? then Detected(e.id, e.now) else if e.report.fullReport then Finished(e.report)
        else Reported(e.report, e.now);
    RunOne(xs, x);
  }

  lemma SweepRuns(sw: Sweeping, c: Control, e: BusEvent, xs: seq<Event>)
    requires c.registry == Run(xs) && e.Idle? && SweepDue(c, e.tick)
    ensures ControlStep(sw, c, e).0.registry == Run(xs + Meaning(sw, c, e))
    ensures Finals(xs + Meaning(sw, c, e)) == Finals(xs) + ControlStep(sw, c, e).1
  {
    RunOne(xs, Swept(sw.idleMs, e.now));
  }

  lemma NothingRuns(sw: Sweeping, c: Control, e: BusEvent, xs: seq<Event>)
    requires c.registry == Run(xs) && (e.AudioChunk? || (e.Idle? && !SweepDue(c, e.tick)))
    ensures ControlStep(sw, c, e).0.registry == Run(xs + Meaning(sw, c, e))
    ensures Finals(xs + Meaning(sw, c, e)) == Finals(xs) + ControlStep(sw, c, e).1
  {
    ConcatNothing(xs);
    ConcatNothing(Finals(xs));
  }

  lemma RestartRuns(sw: Sweeping, c: Control, e: BusEvent, xs: seq<Event>)
    requires e.Statistics? && c.registry == Run(xs)
    ensures ControlStep(sw, c, e).0.registry == Run(xs + Meaning(sw, c, e))
    ensures Finals(xs + Meaning(sw, c, e)) == Finals(xs) + ControlStep(sw, c, e).1
  {
    var u := e.uptime;
    if RestartSeen(c.registry, u) {
      var noted := c.registry.(lastUptime := Some(u));
      DrainRuns(xs, u, noted);
      DrainStep(sw, c, e, noted);
    } else {
      RunOne(xs, UptimeNoted(u));
      ConcatNothing([UptimeNoted(u)]);
    }
  }

  lemma DrainStep(sw: Sweeping, c: Control, e: BusEvent, noted: Registry)
    requires e.Statistics? && RestartSeen(c.registry, e.uptime) && noted == c.registry.(lastUptime := Some(e.uptime))
    ensures Meaning(sw, c, e) == [UptimeNoted(e.uptime), Drained]
    ensures ControlStep(sw, c, e)
            == (c.(registry := Evict(noted, noted.streams.Keys).0), Evict(noted, noted.streams.Keys).1)
  {
  }

  lemma DrainStepsAre(g: Registry, u: nat)
    ensures Step(g, UptimeNoted(u)) == (g.(lastUptime := Some(u)), [])
    ensures Step(g, Drained) == Evict(g, g.streams.Keys)
  {
  }

  lemma DrainRuns(xs: seq<Event>, u: nat, noted: Registry)
    requires noted == Run(xs).(lastUptime := Some(u))
    ensures Run(xs + [UptimeNoted(u), Drained]) == Evict(noted, noted.streams.Keys).0
    ensures Finals(xs + [UptimeNoted(u), Drained]) == Finals(xs) + Evict(noted, noted.streams.Keys).1
  {
    DrainStepsAre(Run(xs), u);
    DrainStepsAre(noted, u);
    RunTwo(xs, UptimeNoted(u), Drained);
    ConcatNothing(Finals(xs));
  }

  /** The registry's part of a run is a run of the registry alone. */
  lemma {:induction false} RegistryRuns(sw: Sweeping, es: seq<BusEvent>)
    ensures RunControl(sw, es).registry == Run(Meanings(sw, es))
    ensures MadeUp(sw, es) == Finals(Meanings(sw, es))
  {
    if es != [] {
      var front := es[..|es| - 1];
      RegistryRuns(sw, front);
      MeaningRuns(sw, RunControl(sw, front), es[|es| - 1], Meanings(sw, front));
    }
  }

  lemma NotedOne(xs: seq<Event>, x: Event, id: StreamId)
    ensures Noted(xs + [x], id) == Noted(xs, id) + (if x.Reported? && x.report.streamId == id then [x.report] else [])
  {
    assert (xs + [x])[..|xs|] == xs;
  }

  lemma NotedMeaning(sw: Sweeping, c: Control, e: BusEvent, xs: seq<Event>, id: StreamId)
    ensures Noted(xs + Meaning(sw, c, e), id)
            == Noted(xs, id)
               + (if e.StreamReport? && !e.report.fullReport && e.report.streamId == id then [e.report] else [])
  {
    var ms := Meaning(sw, c, e);
    if |ms| == 0 {
      assert xs + ms == xs;
    } else if |ms| == 1 {
      assert ms == [ms[0]];
      NotedOne(xs, ms[0], id);
    } else {
      assert xs + ms == xs + [ms[0]] + [ms[1]];
      NotedOne(xs, ms[0], id);
      NotedOne(xs + [ms[0]], ms[1], id);
    }
  }

  /** Its reports are the interval reports dispatched. */
  lemma {:induction false} MeaningsOfStream(sw: Sweeping, es: seq<BusEvent>, id: StreamId)
    ensures Noted(Meanings(sw, es), id) == Intervals(es, id)
  {
    if es != [] {
      var front := es[..|es| - 1];
      MeaningsOfStream(sw, front, id);
      NotedMeaning(sw, RunControl(sw, front), es[|es| - 1], Meanings(sw, front), id);
    }
  }

  /** What the registry held for a stream whenever a full report of it was dispatched. */
  ghost function Replaced(sw: Sweeping, es: seq<BusEvent>, id: StreamId): seq<Report> {
    if es == [] then []
    else
      var front, e := Replaced(sw, es[..|es| - 1], id), es[|es| - 1];
      if e.StreamReport? && e.report.fullReport && e.report.streamId == id then
        front + Held(RunControl(sw, es[..|es| - 1]).registry, id)
      else front
  }

  lemma FinishedOne(xs: seq<Event>, x: Event, id: StreamId)
    ensures FinishedWith(xs + [x], id)
            == FinishedWith(xs, id) + (if x.Finished? && x.report.streamId == id then Held(Run(xs), id) else [])
  {
    FrontOfAppend(xs, x);
    ConcatNothing(FinishedWith(xs, id));
  }

  lemma FinishedMeaning(sw: Sweeping, c: Control, e: BusEvent, xs: seq<Event>, id: StreamId)
    requires c.registry == Run(xs)
    ensures FinishedWith(xs + Meaning(sw, c, e), id)
            == FinishedWith(xs, id)
               + (if e.StreamReport? && e.report.fullReport && e.report.streamId == id
                  then Held(c.registry, id) else [])
  {
    var ms := Meaning(sw, c, e);
    ConcatNothing(FinishedWith(xs, id));
    if |ms| == 0 {
      assert xs + ms == xs;
    } else if |ms| == 1 {
      assert ms == [ms[0]];
      FinishedOne(xs, ms[0], id);
    } else {
      assert ms == [ms[0], ms[1]];
      ConcatTwo(xs, ms[0], ms[1]);
      FinishedOne(xs, ms[0], id);
      FinishedOne(xs + [ms[0]], ms[1], id);
    }
  }

  /** The reports a finish discards are those the registry held when a full report came. */
  lemma {:induction false} ReplacedIsDiscarded(sw: Sweeping, es: seq<BusEvent>, id: StreamId)
    ensures Replaced(sw, es, id) == Discarded(Meanings(sw, es), id)
  {
    DiscardedIsFinished(Meanings(sw, es), id);
    if es != [] {
      var front := es[..|es| - 1];
      ReplacedIsDiscarded(sw, front, id);
      DiscardedIsFinished(Meanings(sw, front), id);
      RegistryRuns(sw, front);
      FinishedMeaning(sw, RunControl(sw, front), es[|es| - 1], Meanings(sw, front), id);
      ConcatNothing(Replaced(sw, front, id));
    }
  }

  /**
   Over every run of the pipeline, whatever fails in the database: the counters of a stream's interval
   reports are those of the finals made up for it, of the reports its own full reports replaced, and of
   the reports the registry still holds.
  */
  lemma PipelineConserves(sw: Sweeping, es: seq<BusEvent>, id: StreamId)
    ensures SumCounters(Intervals(es, id))
            == AddCounters(AddCounters(SumCounters(OfStream(MadeUp(sw, es), id)),
                                       SumCounters(Replaced(sw, es, id))),
                           SumCounters(Held(RunControl(sw, es).registry, id)))
  {
    RegistryRuns(sw, es);
    MeaningsOfStream(sw, es, id);
    CountersConserved(Meanings(sw, es), id);
    ReplacedIsDiscarded(sw, es, id);
  }

  // ----- the objects -----

  class Ingest {
    const writer: DbWriter
    const registry: ActiveStreamRegistry
    const sweeping: Sweeping
    var nextAt: Option<int>

    ghost function Now(): Control
      reads this, registry
    {
      Control(registry.State(), nextAt)
    }

    ghost predicate Valid()
      reads this, registry
    {
      registry.Valid()
    }

    constructor (writer: DbWriter, registry: ActiveStreamRegistry, sweeping: Sweeping)
      requires registry.Valid()
      ensures Valid() && this.writer == writer && this.registry == registry && this.sweeping == sweeping
      ensures nextAt == None
    {
      this.writer, this.registry, this.sweeping := writer, registry, sweeping;
      nextAt := None;
    }

    /** Routes one event; failed database operations are logged and leave the registry's part unaffected. */
    method Dispatch(e: BusEvent) returns (finals: seq<Report>)
      requires Valid()
      modifies this, writer, registry
      ensures Valid() && (Now(), finals) == ControlStep(sweeping, old(Now()), e)
      ensures writer.State() == StoreStep(writer.config, old(writer.State()), e, finals)
    {
      finals := [];
      match e
      case StreamStart(id, now, o) =>
        var _ := writer.OpenStreamAt(id, now, o.opening);
        registry.OnStreamDetected(id, now);
      case StreamReport(r, now, o) => DispatchReport(r, now, o);
      case AudioChunk(a, o) => var _ := writer.AddAudio(a, o);
      case Statistics(uptime, now, os) => finals := OnStatistics(uptime, now, os);
      case Idle(tick, now, os) => finals := Tick(tick, now, os);
    }

    method DispatchReport(r: Report, now: int, o: Outcome)
      requires Valid()
      modifies writer, registry
      ensures Valid() && (Now(), []) == ControlStep(sweeping, old(Now()), StreamReport(r, now, o))
      ensures writer.State() == StoreStep(writer.config, old(writer.State()), StreamReport(r, now, o), [])
    {
      if r.fullReport {
        var _ := writer.AddFinal(r, now, o);
        registry.OnFinished(r);
      } else {
        var _ := writer.AddInterval(r, now, o);
        registry.OnReport(r, now);
      }
    }

    /** Instance statistics: a restart of vq-core finalises every active stream. */
    method OnStatistics(uptime: nat, now: int, os: nat -> Outcome) returns (finals: seq<Report>)
      requires Valid()
      modifies writer, registry
      ensures Valid() && (Now(), finals) == ControlStep(sweeping, old(Now()), BusEvent.Statistics(uptime, now, os))
      ensures writer.State() == WriteFinals(writer.config, old(writer.State()), finals, now, os, |finals|)
    {
      var restarted := registry.NoteUptime(uptime);
      if !restarted { return []; }
      finals := registry.DrainAll();
      WriteAll(finals, now, os);
    }

    /** The ghost sweeper, run when the bus is idle; not due before `nextAt`. */
    method Tick(tick: int, now: int, os: nat -> Outcome) returns (finals: seq<Report>)
      requires Valid()
      modifies this, writer, registry
      ensures Valid() && (Now(), finals) == ControlStep(sweeping, old(Now()), Idle(tick, now, os))
      ensures writer.State() == WriteFinals(writer.config, old(writer.State()), finals, now, os, |finals|)
    {
      if nextAt.Some? && tick < nextAt.value { return []; }
      SweepStep(sweeping, Now(), tick, now, os);
      nextAt := Some(tick + sweeping.interval);
      finals := registry.SweepGhostsAt(sweeping.idleMs, now);
      WriteAll(finals, now, os);
    }

    /** Writes made-up finals one by one. */
    method WriteAll(fs: seq<Report>, now: int, os: nat -> Outcome)
      modifies writer
      ensures writer.State() == WriteFinals(writer.config, old(writer.State()), fs, now, os, |fs|)
    {
      for i := 0 to |fs|
        invariant writer.State() == WriteFinals(writer.config, old(writer.State()), fs, now, os, i)
      {
        var _ := writer.AddFinal(fs[i], now, os(i));
      }
    }
  }
}

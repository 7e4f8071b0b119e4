/** When a stream was last heard and when it entered, told from the events alone; and what the registry makes of it. */
module LastHeard {
  import opened Lists
  import opened Results
  import opened Tables
  import opened Registry
  import opened Conservation

  /**
   When a stream in the registry was last heard: at its last interval report, or at its detection if none has come
   since; None when it is not there. A sweep takes it when that is long enough ago.
  */
  function Heard(es: seq<Event>, id: StreamId): Option<int> {
    if es == [] then None
    else
      var before := Heard(es[..|es| - 1], id);
      match es[|es| - 1]
      case Detected(i, now) => if i == id && before.None? then Some(now) else before
      case Reported(r, now) => if r.streamId == id then Some(now) else before
      case Finished(r) => if r.streamId == id then None else before
      case Swept(idleMs, now) => if before.Some? && now - before.value >= idleMs then None else before
      case Drained => None
      case UptimeNoted(_) => before
  }

  /** What one event does to when a stream was last seen. */
  function SeenNow(g: Registry, id: StreamId): Option<int> {
    if id in g.streams then Some(g.streams[id].lastSeenMs) else None
  }

  lemma EvictLeaves(g: Registry, s: set<StreamId>)
    requires s <= g.streams.Keys
    ensures Evict(g, s).0.streams == g.streams - s
  {
  }

  /** Over every run the registry has the streams that are still to be heard from, each with that time. */
  lemma {:induction false} HeardIsSeen(es: seq<Event>, id: StreamId)
    ensures SeenNow(Run(es), id) == Heard(es, id)
  {
    if es != [] {
      var front, e := es[..|es| - 1], es[|es| - 1];
      var g := Run(front);
      HeardIsSeen(front, id);
      match e
      case Swept(idleMs, now) => EvictLeaves(g, Stale(g, idleMs, now));
      case Drained => EvictLeaves(g, g.streams.Keys);
      case _ =>
    }
  }

  /** A sweep takes exactly the streams that were last heard at least the idle time ago. */
  lemma SweepTakes(es: seq<Event>, idleMs: int, now: int, id: StreamId)
    ensures id in Stale(Run(es), idleMs, now) <==> Heard(es, id).Some? && now - Heard(es, id).value >= idleMs
    ensures id in Run(es + [Swept(idleMs, now)]).streams <==>
              Heard(es, id).Some? && now - Heard(es, id).value < idleMs
  {
    HeardIsSeen(es, id);
    FrontOfAppend(es, Swept(idleMs, now));
    EvictLeaves(Run(es), Stale(Run(es), idleMs, now));
  }

  // ----- the order of entering -----

  /** The event at which a stream in the registry entered it. */
  function EnteredAt(es: seq<Event>, id: StreamId): nat
    requires Heard(es, id).Some?
  {
    var front, e := es[..|es| - 1], es[|es| - 1];
    if Heard(front, id).Some? then EnteredAt(front, id) else |front|
  }

  lemma {:induction false} EnteredBefore(es: seq<Event>, id: StreamId)
    requires Heard(es, id).Some?
    ensures EnteredAt(es, id) < |es|
  {
    var front := es[..|es| - 1];
    if Heard(front, id).Some? { EnteredBefore(front, id); }
  }

  /** A stream that was there keeps its place; one that enters comes after all that are there. */
  lemma StepKeepsPlaces(g: Registry, e: Event, id: StreamId)
    requires WellFormed(g) && id in Step(g, e).0.streams
    ensures id in g.streams ==> Step(g, e).0.streams[id].order == g.streams[id].order
    ensures id !in g.streams ==> Step(g, e).0.streams[id].order == g.order + 1
    ensures id !in g.streams ==> (e.Detected? && e.id == id) || (e.Reported? && e.report.streamId == id)
  {
  }

  /** The order numbers are in the order in which the streams entered. */
  lemma {:induction false} OrderIsEntry(es: seq<Event>, a: StreamId, b: StreamId)
    requires a in Run(es).streams && b in Run(es).streams
    ensures Heard(es, a).Some? && Heard(es, b).Some?
    ensures Run(es).streams[a].order < Run(es).streams[b].order <==> EnteredAt(es, a) < EnteredAt(es, b)
  {
    HeardIsSeen(es, a);
    HeardIsSeen(es, b);
    if es != [] {
      var front, e := es[..|es| - 1], es[|es| - 1];
      var g := Run(front);
      RunWellFormed(front);
      HeardIsSeen(front, a);
      HeardIsSeen(front, b);
      StepKeepsPlaces(g, e, a);
      StepKeepsPlaces(g, e, b);
      if a in g.streams { EnteredBefore(front, a); }
      if b in g.streams { EnteredBefore(front, b); }
      if a in g.streams && b in g.streams { OrderIsEntry(front, a, b); }
    }
  }

  // ----- restarts and counts -----

  /** The uptime heard last. */
  function LastUptime(es: seq<Event>): Option<nat> {
    if es == [] then None
    else
      var e := es[|es| - 1];
      if e.UptimeNoted? then Some(e.seconds) else LastUptime(es[..|es| - 1])
  }

  /** A restart is seen exactly when the uptime is less than the one heard last. */
  lemma {:induction false} RestartSeenExactly(es: seq<Event>, uptime: nat)
    ensures Run(es).lastUptime == LastUptime(es)
    ensures RestartSeen(Run(es), uptime) <==> exists last :: LastUptime(es) == Some(last) && uptime < last
  {
    if es != [] { RestartSeenExactly(es[..|es| - 1], uptime); }
  }

  function Detections(es: seq<Event>): nat {
    if es == [] then 0 else Detections(es[..|es| - 1]) + if es[|es| - 1].Detected? then 1 else 0
  }

  function OwnFinishes(es: seq<Event>): nat {
    if es == [] then 0 else OwnFinishes(es[..|es| - 1]) + if es[|es| - 1].Finished? then 1 else 0
  }

  /** The streams given up on: those that sweeps and drains took out. */
  ghost function GivenUpOn(es: seq<Event>): int {
    if es == [] then 0
    else
      var front, e := es[..|es| - 1], es[|es| - 1];
      GivenUpOn(front) + if e.Swept? || e.Drained? then |Run(front).streams| - |Run(es).streams| else 0
  }

  lemma SizesLess(m: map<StreamId, Entry>, s: set<StreamId>)
    requires s <= m.Keys
    ensures |m - s| == |m| - |s|
  {
    assert (m - s).Keys == m.Keys - s;
    assert |m.Keys - s| == |m.Keys| - |s|;
    assert |m| == |m.Keys| && |m - s| == |(m - s).Keys|;
  }

  /** Streams started are detections; streams finished are own finishes and streams given up on. */
  lemma {:induction false} CountsAdd(es: seq<Event>)
    ensures Run(es).started == Detections(es)
    ensures Run(es).finished == OwnFinishes(es) + GivenUpOn(es)
  {
    if es != [] {
      var front, e := es[..|es| - 1], es[|es| - 1];
      var g := Run(front);
      CountsAdd(front);
      match e
      case Swept(idleMs, now) => SizesLess(g.streams, Stale(g, idleMs, now));
      case Drained => SizesLess(g.streams, g.streams.Keys);
      case _ =>
    }
  }
}

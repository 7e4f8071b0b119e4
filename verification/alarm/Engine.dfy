/** The alarm engine: a hysteresis state machine per rule, evaluated on every tick. */
module AlarmEngine {
  import opened Lists
  import opened Results

  datatype Direction = Below | Above

  /** A rule as far as evaluation goes; a validated rule has a positive window. */
  datatype Rule = Rule(name: string, op: Direction, limit: real, window: int, minSamples: int)

  datatype Kind = Raised | Repeat | Cleared

  datatype Event = Event(rule: Rule, kind: Kind, value: real, samples: int, at: int)

  /** What measuring a rule gave: an error, or a value over some samples and whether it is known. */
  datatype Measurement = Failed(message: string) | Measured(value: real, samples: int, known: bool)

  datatype Status = Status(
    alarm: bool,
    value: real,
    samples: int,
    measured: bool,
    lastCheck: int,
    lastChange: int,
    lastNotify: int,
    lastError: string)

  predicate Bad(r: Rule, v: real) {
    if r.op == Above then v > r.limit else v < r.limit
  }

  /** Whether a measurement carries a value over enough samples. */
  predicate Usable(r: Rule, m: Measurement) {
    m.Measured? && m.known && m.samples >= r.minSamples
  }

  /** The status a rule starts with. */
  const INITIAL: Status := Status(false, 0.0, 0, false, 0, 0, 0, "")

  // ----- the specification -----

  /** What one tick notifies. */
  function Notice(r: Rule, s: Status, now: int, m: Measurement): Option<Kind> {
    if !Usable(r, m) then None
    else if Bad(r, m.value) then
      if !s.alarm then Some(Raised) else if now - s.lastNotify >= r.window then Some(Repeat) else None
    else if s.alarm then Some(Cleared) else None
  }

  function Next(r: Rule, s: Status, now: int, m: Measurement): Status {
    match m
    case Failed(message) => s.(lastCheck := now, lastError := message, measured := false)
    case Measured(v, n, _) =>
      var seen := s.(lastCheck := now, lastError := "", value := v, samples := n, measured := Usable(r, m));
      match Notice(r, s, now, m)
      case Some(Raised) => seen.(alarm := true, lastChange := now, lastNotify := now)
      case Some(Repeat) => seen.(lastNotify := now)
      case Some(Cleared) => seen.(alarm := false, lastChange := now, lastNotify := now)
      case None => seen
  }

  /** One tick of one rule: when, and what measuring gave. */
  datatype Check = Check(at: int, m: Measurement)

  datatype Notification = Notification(kind: Kind, at: int)

  function StatusAfter(r: Rule, cs: seq<Check>): Status {
    if cs == [] then INITIAL
    else
      var last := cs[|cs| - 1];
      Next(r, StatusAfter(r, cs[..|cs| - 1]), last.at, last.m)
  }

  function NoticesAfter(r: Rule, cs: seq<Check>): seq<Notification> {
    if cs == [] then []
    else
      var front, last := cs[..|cs| - 1], cs[|cs| - 1];
      NoticesAfter(r, front) + match Notice(r, StatusAfter(r, front), last.at, last.m)
                               case Some(k) => [Notification(k, last.at)]
                               case None => []
  }

  // ----- what every run keeps -----

  /** Whether an event of kind `next` may follow one of kind `prev`. */
  predicate MayFollow(prev: Option<Kind>, next: Kind) {
    match prev
    case None => next == Raised
    case Some(Cleared) => next == Raised
    case Some(_) => next == Repeat || next == Cleared
  }

  function LastKind(ns: seq<Notification>): Option<Kind> {
    if ns == [] then None else Some(ns[|ns| - 1].kind)
  }

  /** A prefix of (raised repeat* cleared)*. */
  ghost predicate Language(ns: seq<Notification>) {
    ns == [] || (Language(ns[..|ns| - 1]) && MayFollow(LastKind(ns[..|ns| - 1]), ns[|ns| - 1].kind))
  }

  ghost predicate InAlarm(k: Option<Kind>) {
    k == Some(Raised) || k == Some(Repeat)
  }

  /** Repeats come at least a window after the notification before them. */
  ghost predicate Spaced(ns: seq<Notification>, window: int) {
    forall i, j :: 0 <= i < j < |ns| && j == i + 1 && ns[j].kind == Repeat ==> ns[j].at - ns[i].at >= window
  }

  /** The events form a prefix of (raised repeat* cleared)*, and the state is read off the last one. */
  lemma {:induction false} EventLanguage(r: Rule, cs: seq<Check>)
    ensures Language(NoticesAfter(r, cs))
    ensures StatusAfter(r, cs).alarm <==> InAlarm(LastKind(NoticesAfter(r, cs)))
    ensures var ns := NoticesAfter(r, cs);
            ns != [] ==> StatusAfter(r, cs).lastNotify == ns[|ns| - 1].at
    ensures Spaced(NoticesAfter(r, cs), r.window)
  {
    if cs != [] {
      var front, last := cs[..|cs| - 1], cs[|cs| - 1];
      EventLanguage(r, front);
      var before, ns := NoticesAfter(r, front), NoticesAfter(r, cs);
      match Notice(r, StatusAfter(r, front), last.at, last.m)
      case Some(k) =>
        assert ns == before + [Notification(k, last.at)];
        assert ns[..|ns| - 1] == before;
      case None =>
        assert ns == before;
    }
  }

  /** Events `i` to `j` are one episode still bad: the first is its raise, the rest are repeats. */
  ghost predicate Episode(ns: seq<Notification>, i: nat, j: nat) {
    i <= j < |ns| && ns[i].kind == Raised && forall k :: i < k <= j ==> ns[k].kind == Repeat
  }

  lemma {:induction false} EpisodeSpan(ns: seq<Notification>, window: int, i: nat, j: nat)
    requires Spaced(ns, window) && Episode(ns, i, j)
    ensures ns[j].at - ns[i].at >= (j - i) * window
    decreases j
  {
    if i < j {
      EpisodeSpan(ns, window, i, j - 1);
      var k := j - 1;
      assert ns[j].at - ns[k].at >= window;
      assert (j - i) * window == (j - 1 - i) * window + window;
    }
  }

  /** An episode that lasts `T` gives at most 1 + T / window alarm and repeat events. */
  lemma EpisodeBound(r: Rule, cs: seq<Check>, i: nat, j: nat)
    requires r.window > 0 && Episode(NoticesAfter(r, cs), i, j)
    ensures var ns := NoticesAfter(r, cs);
            j - i + 1 <= 1 + (ns[j].at - ns[i].at) / r.window
  {
    EventLanguage(r, cs);
    var ns := NoticesAfter(r, cs);
    EpisodeSpan(ns, r.window, i, j);
    var t, n := ns[j].at - ns[i].at, j - i;
    Quotient(t, n, r.window);
  }

  lemma MulMonotone(a: int, b: int, w: int)
    requires a <= b && w > 0
    ensures a * w <= b * w
  {
  }

  lemma Quotient(t: int, n: nat, w: int)
    requires w > 0 && t >= n * w
    ensures t / w >= n
  {
    if t / w < n { MulMonotone(t / w + 1, n, w); }
  }

  /**
   While a rule is measured bad it does not stay silent: at every usable bad check a notification has
   come within the last window, and after every usable good check the rule is not in alarm. Bad is a value above the
   limit of a rule that watches for high values, and below the limit of one that watches for low ones.
  */
  lemma NeverSilent(r: Rule, cs: seq<Check>)
    requires cs != [] && r.window > 0
    requires var m := cs[|cs| - 1].m; m.Measured? && m.known && m.samples >= r.minSamples
    ensures var s, last := StatusAfter(r, cs), cs[|cs| - 1];
            var over, under := last.m.value > r.limit, last.m.value < r.limit;
            if (if r.op.Above? then over else under) then s.alarm && last.at - s.lastNotify < r.window else !s.alarm
  {
  }

  /** The first usable bad check of a rule that is not in alarm raises it at once. */
  lemma RaisesAtOnce(r: Rule, s: Status, now: int, value: real, samples: int)
    requires !s.alarm && samples >= r.minSamples
    ensures Sent(r, s, now, Measured(value, samples, true))
            == if (r.op.Above? && value > r.limit) || (r.op.Below? && value < r.limit)
               then Some(Event(r, Raised, value, samples, now)) else None
  {
  }

  /** What is sent carries the rule, the value and samples measured, and the time of the check. */
  lemma SentCarries(r: Rule, s: Status, now: int, m: Measurement)
    requires Sent(r, s, now, m).Some?
    ensures var ev := Sent(r, s, now, m).value;
            && m.Measured? && m.known && m.samples >= r.minSamples
            && ev.rule == r && ev.value == m.value && ev.samples == m.samples && ev.at == now
            && (ev.kind == Cleared <==> !Next(r, s, now, m).alarm)
  {
  }

  /** A tick that fails or has too few samples changes neither the alarm state nor its times. */
  lemma UnusableKeepsState(r: Rule, s: Status, now: int, m: Measurement)
    requires m.Failed? || !m.known || m.samples < r.minSamples
    ensures var t := Next(r, s, now, m);
            && Notice(r, s, now, m) == None
            && t.alarm == s.alarm && t.lastChange == s.lastChange && t.lastNotify == s.lastNotify && !t.measured
  {
  }

  // ----- the engine -----

  class Engine {
    /** The rules in configured order, and the status of each. */
    const rules: seq<Rule>
    var statuses: seq<Status>
    /** Every event sent to the notifiers. */
    var sent: seq<Event>
    /** The checks each rule has had, and which rule each sent event is of. */
    ghost var checks: seq<seq<Check>>
    ghost var origins: seq<nat>

    ghost predicate Valid()
      reads this
    {
      && |statuses| == |checks| == |rules| && |origins| == |sent|
      && AllAccounted(rules, statuses, checks, sent, origins, |rules|)
    }

    constructor (rules: seq<Rule>)
      ensures Valid() && this.rules == rules && sent == [] && origins == []
      ensures forall i :: 0 <= i < |rules| ==> checks[i] == []
    {
      this.rules := rules;
      statuses := seq(|rules|, _ => INITIAL);
      sent := [];
      checks := seq(|rules|, _ => []);
      origins := [];
      new;
      AccountedTogether(rules, statuses, checks, sent, origins, |rules|);
    }

    /** Checks one rule: its new status and the event to send, if any. */
    static method Evaluate(rule: Rule, before: Status, now: int, m: Measurement)
      returns (status: Status, ev: Option<Event>)
      ensures status == Next(rule, before, now, m)
      ensures ev == Sent(rule, before, now, m)
    {
      status := before.(lastCheck := now);
      ev := None;
      if m.Failed? {
        status := status.(lastError := m.message, measured := false);
        return;
      }
      status := status.(lastError := "", value := m.value, samples := m.samples,
                        measured := m.known && m.samples >= rule.minSamples);
      if status.measured {
        var bad := Bad(rule, m.value);
        if bad && !status.alarm {
          status := status.(alarm := true, lastChange := now, lastNotify := now);
          ev := Some(Event(rule, Raised, m.value, m.samples, now));
        } else if bad && now - status.lastNotify >= rule.window {
          status := status.(lastNotify := now);
          ev := Some(Event(rule, Repeat, m.value, m.samples, now));
        } else if !bad && status.alarm {
          status := status.(alarm := false, lastChange := now, lastNotify := now);
          ev := Some(Event(rule, Cleared, m.value, m.samples, now));
        }
      }
    }

    /** One rule's turn in a tick. */
    method TickRule(i: nat, now: int, m: Measurement)
      requires Valid() && i < |rules|
      modifies this
      ensures Valid()
      ensures statuses == old(statuses)[i := Next(rules[i], old(statuses)[i], now, m)]
      ensures checks == old(checks)[i := old(checks)[i] + [Check(now, m)]]
      ensures var ev := Sent(rules[i], old(statuses)[i], now, m);
              sent == old(sent) + (if ev.Some? then [ev.value] else [])
    {
      var status, ev := Evaluate(rules[i], statuses[i], now, m);
      AccountedAt(rules, statuses, checks, sent, origins, |rules|, i);
      AccountedNext(rules, statuses, checks, sent, origins, i, Check(now, m));
      statuses := statuses[i := status];
      checks := checks[i := checks[i] + [Check(now, m)]];
      sent := sent + if ev.Some? then [ev.value] else [];
      origins := origins + if ev.Some? then [i] else [];
    }

    /** Evaluates every rule once, in configured order; `ms[i]` is what measuring rule `i` gives. */
    method Tick(now: int, ms: seq<Measurement>)
      requires Valid() && |ms| == |rules|
      modifies this
      ensures Valid() && |checks| == |old(checks)|
      ensures forall i :: 0 <= i < |rules| ==> checks[i] == old(checks)[i] + [Check(now, ms[i])]
      ensures sent == old(sent) + SentBy(rules, old(statuses), now, ms, |rules|)
    {
      ghost var before, had := statuses, checks;
      var i := 0;
      while i < |rules|
        invariant 0 <= i <= |rules| && Valid()
        invariant sent == old(sent) + SentBy(rules, before, now, ms, i)
        invariant HalfTicked(had, before, checks, statuses, now, ms, i)
      {
        HalfTickedNext(had, before, checks, statuses, now, ms, i, Next(rules[i], statuses[i], now, ms[i]));
        TickRule(i, now, ms[i]);
        i := i + 1;
      }
    }
  }

  /** Rule number i has the status and has sent the notifications of its checks. */
  ghost predicate Accounted(r: Rule, i: nat, s: Status, cs: seq<Check>, sent: seq<Event>, origins: seq<nat>) {
    && s == StatusAfter(r, cs) && |sent| == |origins| && PartOf(sent, origins, i) == NoticesAfter(r, cs)
    && OwnRule(r, i, sent, origins)
  }

  /** The events of rule number i carry it. */
  ghost predicate OwnRule(r: Rule, i: nat, sent: seq<Event>, origins: seq<nat>)
    requires |sent| == |origins|
  {
    forall k :: 0 <= k < |sent| && origins[k] == i ==> sent[k].rule == r
  }

  lemma OwnRuleStep(r: Rule, j: nat, sent: seq<Event>, origins: seq<nat>, ev: Option<Event>, i: nat)
    requires |sent| == |origins| && OwnRule(r, j, sent, origins) && (ev.Some? && i == j ==> ev.value.rule == r)
    ensures OwnRule(r, j, sent + (if ev.Some? then [ev.value] else []), origins + (if ev.Some? then [i] else []))
  {
  }

  ghost predicate AllAccounted(rules: seq<Rule>, statuses: seq<Status>, checks: seq<seq<Check>>, sent: seq<Event>,
                               origins: seq<nat>, n: nat)
    requires n <= |rules| == |statuses| == |checks|
  {
    n == 0
    || (AllAccounted(rules, statuses, checks, sent, origins, n - 1)
        && Accounted(rules[n - 1], n - 1, statuses[n - 1], checks[n - 1], sent, origins))
  }

  lemma {:induction false} AccountedAt(
    rules: seq<Rule>, statuses: seq<Status>, checks: seq<seq<Check>>, sent: seq<Event>, origins: seq<nat>, n: nat,
    i: nat)
    requires i < n <= |rules| == |statuses| == |checks| && AllAccounted(rules, statuses, checks, sent, origins, n)
    ensures Accounted(rules[i], i, statuses[i], checks[i], sent, origins)
  {
    if i < n - 1 { AccountedAt(rules, statuses, checks, sent, origins, n - 1, i); }
  }

  lemma {:induction false} AccountedTogether(
    rules: seq<Rule>, statuses: seq<Status>, checks: seq<seq<Check>>, sent: seq<Event>, origins: seq<nat>, n: nat)
    requires n <= |rules| == |statuses| == |checks|
    requires forall i :: 0 <= i < |rules| ==> Accounted(rules[i], i, statuses[i], checks[i], sent, origins)
    ensures AllAccounted(rules, statuses, checks, sent, origins, n)
  {
    if n > 0 { AccountedTogether(rules, statuses, checks, sent, origins, n - 1); }
  }

  /** One rule's check keeps the accounts of all. */
  lemma AccountedNext(
    rules: seq<Rule>, statuses: seq<Status>, checks: seq<seq<Check>>, sent: seq<Event>, origins: seq<nat>, i: nat,
    c: Check)
    requires i < |rules| == |statuses| == |checks| && |sent| == |origins|
    requires AllAccounted(rules, statuses, checks, sent, origins, |rules|)
    ensures var s := StatusAfter(rules[i], checks[i]); var ev := Sent(rules[i], s, c.at, c.m);
            AllAccounted(rules, statuses[i := Next(rules[i], s, c.at, c.m)], checks[i := checks[i] + [c]],
                         sent + (if ev.Some? then [ev.value] else []),
                         origins + (if ev.Some? then [i] else []), |rules|)
  {
    var s := StatusAfter(rules[i], checks[i]);
    var ev := Sent(rules[i], s, c.at, c.m);
    var more, from := sent + (if ev.Some? then [ev.value] else []), origins + (if ev.Some? then [i] else []);
    var next, with := Next(rules[i], s, c.at, c.m), checks[i] + [c];
    forall j | 0 <= j < |rules|
      ensures Accounted(rules[j], j, statuses[i := next][j], checks[i := with][j], more, from)
    {
      OneAccounted(rules, statuses, checks, sent, origins, i, j, c, more, from);
    }
    AccountedTogether(rules, statuses[i := next], checks[i := with], more, from, |rules|);
  }

  /** What one rule's check means for the accounts of rule j. */
  lemma OneAccounted(
    rules: seq<Rule>, statuses: seq<Status>, checks: seq<seq<Check>>, sent: seq<Event>, origins: seq<nat>, i: nat,
    j: nat, c: Check, more: seq<Event>, from: seq<nat>)
    requires i < |rules| == |statuses| == |checks| && j < |rules| && |sent| == |origins|
    requires AllAccounted(rules, statuses, checks, sent, origins, |rules|)
    requires var ev := Sent(rules[i], StatusAfter(rules[i], checks[i]), c.at, c.m);
             && more == sent + (if ev.Some? then [ev.value] else [])
             && from == origins + (if ev.Some? then [i] else [])
    ensures j != i ==> Accounted(rules[j], j, statuses[j], checks[j], more, from)
    ensures j == i ==> Accounted(rules[i], i, Next(rules[i], StatusAfter(rules[i], checks[i]), c.at, c.m),
                                 checks[i] + [c], more, from)
  {
    AccountedAt(rules, statuses, checks, sent, origins, |rules|, j);
    var ev := Sent(rules[i], StatusAfter(rules[i], checks[i]), c.at, c.m);
    OwnRuleStep(rules[j], j, sent, origins, ev, i);
    PartStep(rules, sent, origins, i, j, checks, c);
    StatusStep(rules[i], checks[i], c);
  }

  /** The notifications of rule i among the events sent. */
  function PartOf(sent: seq<Event>, origins: seq<nat>, i: nat): seq<Notification>
    requires |sent| == |origins|
  {
    if sent == [] then []
    else
      var n := |sent| - 1;
      PartOf(sent[..n], origins[..n], i) + if origins[n] == i then [Notification(sent[n].kind, sent[n].at)] else []
  }

  lemma PartAppend(sent: seq<Event>, origins: seq<nat>, ev: Event, i: nat, j: nat)
    requires |sent| == |origins|
    ensures PartOf(sent + [ev], origins + [i], j)
            == PartOf(sent, origins, j) + if i == j then [Notification(ev.kind, ev.at)] else []
  {
    FrontOfAppend(sent, ev);
    FrontOfAppend(origins, i);
  }

  /** What one check sends is what it adds to the rule's notifications, and nothing to another rule's. */
  lemma PartStep(
    rules: seq<Rule>, sent: seq<Event>, origins: seq<nat>, i: nat, j: nat, checks: seq<seq<Check>>, c: Check)
    requires |sent| == |origins| && i < |rules| == |checks| && j < |rules|
    requires PartOf(sent, origins, j) == NoticesAfter(rules[j], checks[j])
    ensures var ev := Sent(rules[i], StatusAfter(rules[i], checks[i]), c.at, c.m);
            PartOf(sent + (if ev.Some? then [ev.value] else []), origins + (if ev.Some? then [i] else []), j)
            == NoticesAfter(rules[j], if j == i then checks[i] + [c] else checks[j])
  {
    var ev := Sent(rules[i], StatusAfter(rules[i], checks[i]), c.at, c.m);
    NoticesStep(rules[i], checks[i], c);
    ConcatNothing(PartOf(sent, origins, j));
    if ev.Some? {
      PartAppend(sent, origins, ev.value, i, j);
    } else {
      ConcatNothing(sent);
      ConcatNothing(origins);
    }
  }

  lemma NoticesStep(r: Rule, cs: seq<Check>, c: Check)
    ensures var ev := Sent(r, StatusAfter(r, cs), c.at, c.m);
            NoticesAfter(r, cs + [c])
            == NoticesAfter(r, cs) + if ev.Some? then [Notification(ev.value.kind, ev.value.at)] else []
  {
    FrontOfAppend(cs, c);
  }

  /**
   What an engine has sent for each rule is in the event language, and its status says whether the last of it was
   alarm or repeat.
  */
  lemma EngineSpeaks(e: Engine, i: nat)
    requires e.Valid() && i < |e.rules|
    ensures var ns := PartOf(e.sent, e.origins, i);
            && Language(ns) && Spaced(ns, e.rules[i].window)
            && (e.statuses[i].alarm <==> InAlarm(LastKind(ns)))
  {
    AccountedAt(e.rules, e.statuses, e.checks, e.sent, e.origins, |e.rules|, i);
    EventLanguage(e.rules[i], e.checks[i]);
  }

  lemma EngineEpisodes(e: Engine, i: nat, a: nat, b: nat)
    requires e.Valid() && i < |e.rules| && e.rules[i].window > 0 && Episode(PartOf(e.sent, e.origins, i), a, b)
    ensures var ns := PartOf(e.sent, e.origins, i); b - a + 1 <= 1 + (ns[b].at - ns[a].at) / e.rules[i].window
  {
    AccountedAt(e.rules, e.statuses, e.checks, e.sent, e.origins, |e.rules|, i);
    EpisodeBound(e.rules[i], e.checks[i], a, b);
  }

  /** In a tick, the first i rules have been checked and the others are as they were. */
  ghost predicate HalfTicked(had: seq<seq<Check>>, before: seq<Status>, checks: seq<seq<Check>>, statuses: seq<Status>,
                             now: int, ms: seq<Measurement>, i: nat) {
    && |had| == |before| == |checks| == |statuses| == |ms| && i <= |ms|
    && (forall j :: 0 <= j < i ==> checks[j] == had[j] + [Check(now, ms[j])])
    && (forall j :: i <= j < |ms| ==> checks[j] == had[j] && statuses[j] == before[j])
  }

  lemma HalfTickedNext(had: seq<seq<Check>>, before: seq<Status>, checks: seq<seq<Check>>, statuses: seq<Status>,
                       now: int, ms: seq<Measurement>, i: nat, s: Status)
    requires i < |ms| && HalfTicked(had, before, checks, statuses, now, ms, i)
    ensures HalfTicked(had, before, checks[i := checks[i] + [Check(now, ms[i])]], statuses[i := s], now, ms, i + 1)
  {
  }

  lemma StatusStep(r: Rule, cs: seq<Check>, c: Check)
    ensures StatusAfter(r, cs + [c]) == Next(r, StatusAfter(r, cs), c.at, c.m)
  {
    assert (cs + [c])[..|cs|] == cs;
  }

  /** The event one check sends. */
  function Sent(r: Rule, s: Status, now: int, m: Measurement): Option<Event> {
    if m.Failed? then None
    else match Notice(r, s, now, m)
      case None => None
      case Some(k) => Some(Event(r, k, m.value, m.samples, now))
  }

  /** The events one tick sends for the first `n` rules, in rule order. */
  function SentBy(rs: seq<Rule>, before: seq<Status>, now: int, ms: seq<Measurement>, n: nat): seq<Event>
    requires n <= |rs| == |before| == |ms|
  {
    if n == 0 then []
    else
      var ev := Sent(rs[n - 1], before[n - 1], now, ms[n - 1]);
      SentBy(rs, before, now, ms, n - 1) + (if ev.Some? then [ev.value] else [])
  }
}

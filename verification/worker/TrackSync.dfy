/**
 * The track-list reconciler as interleaved steps: the bus goroutines that spot a restart of vq-core, the worker
 * goroutine that reconciles, vq-core itself, and the clock.
 */
module TrackSync {
  import opened Lists
  import opened Results

  // ----- comparing pattern lists -----

  /** The worker's comparison: equal lengths, and every desired pattern among the current ones. */
  predicate SetEqual(a: seq<string>, b: seq<string>) {
    |a| == |b| && Elems(b) <= Elems(a)
  }

  /** The one-sided test is enough against a list without duplicates. */
  lemma SetEqualSound(a: seq<string>, b: seq<string>)
    requires NoRepeats(b) && SetEqual(a, b)
    ensures Elems(a) == Elems(b)
  {
    ElemsAtMost(a);
    ElemsOfDistinct(b);
    SubsetOfSameSize(Elems(b), Elems(a));
  }

  ghost predicate Judges(b: seq<string>) {
    forall a :: SetEqual(a, b) ==> Elems(a) == Elems(b)
  }

  /** A pattern that is not in a list: longer than every member. */
  function Longest(a: seq<string>): (n: nat)
    ensures forall x :: x in a ==> |x| <= n
  {
    if a == [] then 0
    else
      var m := Longest(a[..|a| - 1]);
      if |a[|a| - 1]| > m then |a[|a| - 1]| else m
  }

  lemma Outsider(a: seq<string>) returns (x: string)
    ensures x !in a
  {
    x := seq(Longest(a) + 1, _ => 'x');
  }

  /** The test judges a desired list correctly exactly when the list repeats nothing. */
  lemma SetEqualExact(b: seq<string>)
    ensures Judges(b) <==> NoRepeats(b)
  {
    if NoRepeats(b) {
      forall a | SetEqual(a, b) ensures Elems(a) == Elems(b) { SetEqualSound(a, b); }
    } else {
      var i, j :| 0 <= i < j < |b| && b[i] == b[j];
      var x := Outsider(b);
      var a := b[i := x];
      forall y | y in b ensures y in a {
        var k :| 0 <= k < |b| && b[k] == y;
        assert a[if k == i then j else k] == y;
      }
      assert a[i] == x && x in Elems(a) && x !in Elems(b);
      assert SetEqual(a, b);
    }
  }

  // ----- the protocol -----

  /** The persisted list, and the retry policy after a restart. */
  datatype Config = Config(desired: seq<string>, every: nat, retryFor: nat) {
    /** How often one restarted pass may try. */
    function MaxTries(): nat
      requires every > 0
    {
      retryFor / every + 2
    }
  }

  /** A plain pass tries once; a pass after a restart retries until its deadline. */
  datatype Pass = Plain | Restarted(deadline: int, tries: nat)

  /** Where the worker goroutine is. */
  datatype Phase =
    | Waiting
    | Received
    | Redialling(p: Pass)
    | Loading(p: Pass)
    | Querying(p: Pass)
    | Comparing(p: Pass, current: seq<string>)
    | Replacing(p: Pass)
    | Unreachable(p: Pass)
    | Sleeping(p: Pass, until: int)

  datatype State = State(
    now: int,
    // vq-core
    core: seq<string>,
    uptime: nat,
    // NoteUptime: what it remembers, and its calls that found a restart but have yet to set the flag or to kick
    lastUptime: Option<nat>,
    storing: nat,
    kicking: nat,
    // shared with the worker
    restarted: bool,
    kick: bool,
    phase: Phase,
    // bookkeeping that no goroutine reads
    unheard: bool,  // vq-core has restarted since the last heartbeat
    noticed: bool,  // a restart was noticed, and vq-core has neither restarted nor been edited by others since
    gaveUp: bool)   // the last pass to end after a restart ended without success

  /** What can happen next. */
  datatype Step =
    // the environment
    | Passes(d: nat)
    | CoreRestarts
    | OthersEdit(list: seq<string>)
    | Heartbeat
    | OthersKick
    | TickFires
    // NoteUptime after its detection
    | StoreFlag
    | NoterKicks
    // the worker
    | Receive
    | Swap
    | Reconnect
    | Load(loaded: bool)
    | Query(reached: bool)
    | Compare
    | ReplaceApplied(kept: seq<string>)
    | ReplaceRefused
    | ReplaceLost(applied: Option<seq<string>>)
    | GiveUp
    | Sleep
    | Wake(at: int)

  predicate Environment(e: Step) {
    e.Passes? || e.CoreRestarts? || e.OthersEdit? || e.Heartbeat? || e.OthersKick? || e.TickFires?
  }

  predicate WorkerStep(e: Step) {
    !Environment(e) && !e.StoreFlag? && !e.NoterKicks?
  }

  predicate Detects(s: State) {
    s.lastUptime.Some? && s.uptime < s.lastUptime.value
  }

  predicate Enabled(c: Config, s: State, e: Step) {
    match e
    case Passes(_) => true
    case CoreRestarts => true
    case OthersEdit(_) => true
    case Heartbeat => true
    case OthersKick => true
    case TickFires => s.phase.Waiting?
    case StoreFlag => s.storing > 0
    case NoterKicks => s.kicking > 0
    case Receive => s.phase.Waiting? && s.kick
    case Swap => s.phase.Received?
    case Reconnect => s.phase.Redialling?
    case Load(_) => s.phase.Loading?
    case Query(_) => s.phase.Querying?
    case Compare => s.phase.Comparing?
    case ReplaceApplied(kept) => s.phase.Replacing? && Elems(kept) == Elems(c.desired)
    case ReplaceRefused => s.phase.Replacing?
    case ReplaceLost(applied) => s.phase.Replacing? && (applied.Some? ==> Elems(applied.value) == Elems(c.desired))
    case GiveUp => s.phase.Unreachable? && (s.phase.p.Plain? || s.now > s.phase.p.deadline)
    case Sleep => s.phase.Unreachable? && s.phase.p.Restarted? && s.now <= s.phase.p.deadline
    case Wake(at) => s.phase.Sleeping? && s.now <= at && s.phase.until <= at
  }

  function Advance(s: State, d: nat): State {
    s.(now := s.now + d, uptime := s.uptime + d)
  }

  /** The worker ends its pass and goes back to waiting; only a pass after a restart owes success. */
  function End(s: State, p: Pass, success: bool): State {
    s.(phase := Waiting, gaveUp := if success then false else s.gaveUp || p.Restarted?)
  }

  function EnvironmentNext(s: State, e: Step): State
    requires Environment(e)
  {
    match e
    case Passes(d) => Advance(s, d)
    case CoreRestarts => s.(core := [], uptime := 0, unheard := true, noticed := false)
    case OthersEdit(list) => s.(core := list, noticed := false)
    case Heartbeat =>
      var heard := s.(lastUptime := Some(s.uptime), unheard := false);
      if Detects(s) then heard.(storing := s.storing + 1, noticed := true, gaveUp := false) else heard
    case OthersKick => s.(kick := true)
    case TickFires => s.(phase := Loading(Plain))
  }

  /** One step of the worker; it takes kicks but makes none. */
  function WorkerNext(c: Config, s: State, e: Step): (t: State)
    requires WorkerStep(e) && Enabled(c, s, e)
    ensures t.storing == s.storing && t.kicking == s.kicking && (t.kick == if e.Receive? then false else s.kick)
  {
    match e
    case Receive => s.(kick := false, phase := Received)
    case Swap =>
      if s.restarted then s.(restarted := false, phase := Redialling(Restarted(s.now + c.retryFor, 1)))
      else s.(phase := Loading(Plain))
    case Reconnect => s.(phase := Loading(s.phase.p))
    case Load(loaded) =>
      if loaded && c.desired != [] then s.(phase := Querying(s.phase.p)) else End(s, s.phase.p, loaded)
    case Query(reached) =>
      s.(phase := if reached then Comparing(s.phase.p, s.core) else Unreachable(s.phase.p))
    case Compare =>
      if SetEqual(s.phase.current, c.desired) then End(s, s.phase.p, true) else s.(phase := Replacing(s.phase.p))
    case ReplaceApplied(kept) => End(s.(core := kept), s.phase.p, true)
    case ReplaceRefused => End(s, s.phase.p, false)
    case ReplaceLost(applied) =>
      s.(core := if applied.Some? then applied.value else s.core, phase := Unreachable(s.phase.p))
    case GiveUp => End(s, s.phase.p, false)
    case Sleep => s.(phase := Sleeping(s.phase.p, s.now + c.every))
    case Wake(at) =>
      var p := s.phase.p;
      var again := if p.Restarted? then p.(tries := p.tries + 1) else p;
      Advance(s, at - s.now).(phase := Redialling(again))
  }

  function Next(c: Config, s: State, e: Step): State
    requires Enabled(c, s, e)
  {
    if Environment(e) then EnvironmentNext(s, e)
    else if e.StoreFlag? then s.(storing := s.storing - 1, kicking := s.kicking + 1, restarted := true)
    else if e.NoterKicks? then s.(kicking := s.kicking - 1, kick := true)
    else WorkerNext(c, s, e)
  }

  predicate Initial(s: State) {
    && s.lastUptime.None? && s.storing == 0 && s.kicking == 0 && !s.restarted && !s.kick && s.phase.Waiting?
    && !s.unheard && !s.noticed && !s.gaveUp
  }

  ghost predicate Runs(c: Config, s: State, es: seq<Step>)
    decreases es
  {
    es == [] || (Enabled(c, s, es[0]) && Runs(c, Next(c, s, es[0]), es[1..]))
  }

  ghost function After(c: Config, s: State, es: seq<Step>): State
    requires Runs(c, s, es)
    decreases es
  {
    if es == [] then s else After(c, Next(c, s, es[0]), es[1..])
  }

  // ----- invariants -----

  /** A set flag is on its way to the worker: a kick is buffered, is about to be, or has just been received. */
  predicate FlagIsHeard(s: State) {
    s.restarted ==> s.kick || s.kicking > 0 || s.phase.Received?
  }

  predicate Synced(c: Config, s: State) {
    c.desired == [] || Elems(s.core) == Elems(c.desired)
  }

  predicate Recovering(f: Phase) {
    !f.Waiting? && !f.Received? && f.p.Restarted?
  }

  /** A noticed restart has been repaired or given up, or a repair is still to come. */
  predicate NoticeIsServed(c: Config, s: State) {
    s.noticed ==> Synced(c, s) || s.gaveUp || s.storing > 0 || s.restarted || Recovering(s.phase)
  }

  /** What the worker holds of vq-core's list is current, unless a further repair is already due. */
  predicate AnswerIsFresh(s: State) {
    s.phase.Comparing? && s.noticed && s.storing == 0 && !s.restarted ==> s.phase.current == s.core
  }

  /** Each try but the first came a retry interval after the one before, and none after the deadline. */
  predicate TriesInTime(c: Config, s: State) {
    Recovering(s.phase) ==>
      var p := s.phase.p;
      && p.tries >= 1
      && (p.tries - 2) * c.every <= c.retryFor
      && p.deadline - c.retryFor + (p.tries - 1) * c.every <= s.now
      && (s.phase.Sleeping? ==>
            (p.tries - 1) * c.every <= c.retryFor && p.deadline - c.retryFor + p.tries * c.every <= s.phase.until)
  }

  /** Only a pass after a restart sleeps. */
  predicate SleeperRecovers(s: State) {
    s.phase.Sleeping? ==> s.phase.p.Restarted?
  }

  /** Within one life of vq-core its uptime never falls behind what was last heard. */
  predicate UptimeGrows(s: State) {
    s.lastUptime.Some? && !s.unheard ==> s.lastUptime.value <= s.uptime
  }

  predicate Inv(c: Config, s: State) {
    FlagIsHeard(s) && AnswerIsFresh(s) && TriesInTime(c, s) && SleeperRecovers(s) && UptimeGrows(s)
  }

  lemma StepKeepsFlag(c: Config, s: State, e: Step)
    requires Enabled(c, s, e) && FlagIsHeard(s) && UptimeGrows(s)
    ensures FlagIsHeard(Next(c, s, e)) && UptimeGrows(Next(c, s, e))
  {
  }

  lemma StepKeepsAnswer(c: Config, s: State, e: Step)
    requires Enabled(c, s, e) && AnswerIsFresh(s)
    ensures AnswerIsFresh(Next(c, s, e))
  {
  }

  lemma StepKeepsNotice(c: Config, s: State, e: Step)
    requires NoRepeats(c.desired) && Enabled(c, s, e) && NoticeIsServed(c, s) && AnswerIsFresh(s)
    ensures NoticeIsServed(c, Next(c, s, e))
  {
    if e.Compare? && SetEqual(s.phase.current, c.desired) { SetEqualSound(s.phase.current, c.desired); }
  }

  lemma StepKeepsTime(c: Config, s: State, e: Step)
    requires Enabled(c, s, e) && TriesInTime(c, s) && SleeperRecovers(s)
    ensures TriesInTime(c, Next(c, s, e))
  {
    if e.Wake? {
      var n := s.phase.p.tries;
      assert (n + 1 - 2) * c.every == (n - 1) * c.every && (n + 1 - 1) * c.every == n * c.every;
    } else if e.Sleep? {
      var n := s.phase.p.tries;
      assert n * c.every == (n - 1) * c.every + c.every;
    } else if e.Swap? {
      assert 0 * c.every == 0 && -1 * c.every <= 0;
    }
  }

  lemma StepKeepsSleeper(c: Config, s: State, e: Step)
    requires Enabled(c, s, e) && SleeperRecovers(s)
    ensures SleeperRecovers(Next(c, s, e))
  {
  }

  lemma StepKeeps(c: Config, s: State, e: Step)
    requires Inv(c, s) && Enabled(c, s, e)
    ensures Inv(c, Next(c, s, e))
  {
    StepKeepsFlag(c, s, e);
    StepKeepsAnswer(c, s, e);
    StepKeepsTime(c, s, e);
    StepKeepsSleeper(c, s, e);
  }

  lemma {:induction false} RunKeeps(c: Config, s: State, es: seq<Step>)
    requires Inv(c, s) && Runs(c, s, es)
    ensures Inv(c, After(c, s, es))
    decreases es
  {
    if es != [] {
      StepKeeps(c, s, es[0]);
      RunKeeps(c, Next(c, s, es[0]), es[1..]);
    }
  }

  lemma {:induction false} RunServesNotices(c: Config, s: State, es: seq<Step>)
    requires NoRepeats(c.desired) && Inv(c, s) && NoticeIsServed(c, s) && Runs(c, s, es)
    ensures NoticeIsServed(c, After(c, s, es))
    decreases es
  {
    if es != [] {
      StepKeeps(c, s, es[0]);
      StepKeepsNotice(c, s, es[0]);
      RunServesNotices(c, Next(c, s, es[0]), es[1..]);
    }
  }

  // ----- main results -----

  predicate Quiet(s: State) {
    s.storing == 0 && s.kicking == 0 && !s.kick && s.phase.Waiting?
  }

  /** In every interleaving a set flag is still going to be swapped. */
  lemma NoRestartLost(c: Config, s: State, es: seq<Step>)
    requires Initial(s) && Runs(c, s, es)
    ensures FlagIsHeard(After(c, s, es))
    ensures Quiet(After(c, s, es)) ==> !After(c, s, es).restarted
  {
    RunKeeps(c, s, es);
  }

  /** Nobody but the reconciler touches vq-core's list in these steps. */
  predicate Undisturbed(es: seq<Step>) {
    forall e :: e in es ==> !e.CoreRestarts? && !e.OthersEdit?
  }

  /** Some heartbeat of the run revealed a restart, and nothing disturbed vq-core after it. */
  ghost predicate RestartNoticed(c: Config, s: State, es: seq<Step>)
    requires Runs(c, s, es)
    decreases es
  {
    es != [] &&
    ((es[0].Heartbeat? && Detects(s) && Undisturbed(es[1..])) || RestartNoticed(c, Next(c, s, es[0]), es[1..]))
  }

  /** Some restart of the run has not been followed by a heartbeat. */
  predicate RestartUnheard(es: seq<Step>) {
    es != [] && ((es[0].CoreRestarts? && Heartbeat !in es[1..]) || RestartUnheard(es[1..]))
  }

  lemma StepBooks(c: Config, s: State, e: Step)
    requires Enabled(c, s, e)
    ensures Next(c, s, e).unheard == (e.CoreRestarts? || (s.unheard && !e.Heartbeat?))
    ensures Next(c, s, e).noticed == ((e.Heartbeat? && Detects(s)) || (s.noticed && !e.CoreRestarts? && !e.OthersEdit?))
  {
  }

  lemma {:induction false} NoticedMeans(c: Config, s: State, es: seq<Step>)
    requires Runs(c, s, es)
    ensures After(c, s, es).noticed <==> RestartNoticed(c, s, es) || (s.noticed && Undisturbed(es))
    decreases es
  {
    if es != [] {
      StepBooks(c, s, es[0]);
      NoticedMeans(c, Next(c, s, es[0]), es[1..]);
      assert es == [es[0]] + es[1..];
      assert Undisturbed(es) <==> !es[0].CoreRestarts? && !es[0].OthersEdit? && Undisturbed(es[1..]);
    }
  }

  lemma {:induction false} UnheardMeans(c: Config, s: State, es: seq<Step>)
    requires Runs(c, s, es)
    ensures After(c, s, es).unheard <==> RestartUnheard(es) || (s.unheard && Heartbeat !in es)
    decreases es
  {
    if es != [] {
      StepBooks(c, s, es[0]);
      UnheardMeans(c, Next(c, s, es[0]), es[1..]);
      assert es == [es[0]] + es[1..];
    }
  }

  /**
   * Whenever the reconciler has come to rest after a restart it noticed, and vq-core was not disturbed since, vq-core
   * holds the persisted set, unless the repair itself ended without success.
   */
  lemma RestMeansSynced(c: Config, s: State, es: seq<Step>)
    requires NoRepeats(c.desired) && Initial(s) && RestsAfterNotice(c, s, es)
    ensures Synced(c, After(c, s, es))
  {
    RunKeeps(c, s, es);
    RunServesNotices(c, s, es);
    NoticedMeans(c, s, es);
  }

  /** A run that comes to rest, without giving up, after a restart it noticed and with no disturbance since. */
  ghost predicate RestsAfterNotice(c: Config, s: State, es: seq<Step>) {
    Runs(c, s, es) && RestartNoticed(c, s, es) && Quiet(After(c, s, es)) && !After(c, s, es).gaveUp
  }

  /** A heartbeat is taken for a restart only when vq-core has restarted since the heartbeat before it. */
  lemma NoFalseAlarm(c: Config, s: State, es: seq<Step>)
    requires Initial(s) && Runs(c, s, es)
    requires Detects(After(c, s, es))
    ensures RestartUnheard(es)
  {
    RunKeeps(c, s, es);
    UnheardMeans(c, s, es);
  }

  lemma Cancel(m: int, n: int, k: int)
    requires k > 0 && m * k < n * k
    ensures m < n
  {
    assert (n - m) * k > 0;
  }

  lemma QuotientBound(n: int, every: nat, total: nat)
    requires every > 0 && n * every <= total
    ensures n <= total / every
  {
    var q := total / every;
    assert (q + 1) * every == q * every + every;
    assert total == q * every + total % every;
    Cancel(n, q + 1, every);
  }

  /** A pass after a restart tries at most retryFor / every + 2 times. */
  lemma TriesBounded(c: Config, s: State, es: seq<Step>)
    requires c.every > 0 && Initial(s) && Runs(c, s, es)
    ensures Recovering(After(c, s, es).phase) ==> After(c, s, es).phase.p.tries <= c.MaxTries()
    ensures var f := After(c, s, es).phase; f.Sleeping? ==> f.p.Restarted? && f.p.tries < c.MaxTries()
  {
    RunKeeps(c, s, es);
    var t := After(c, s, es);
    if Recovering(t.phase) {
      QuotientBound(t.phase.p.tries - 2, c.every, c.retryFor);
      if t.phase.Sleeping? { QuotientBound(t.phase.p.tries - 1, c.every, c.retryFor); }
    }
  }

  // ----- coming to rest -----

  /** Tries left to a pass that may try at most max times. */
  function Left(max: nat, p: Pass): int {
    if p.Plain? then 0 else max - p.tries
  }

  /** Steps the worker may still take before it waits again. */
  function PhaseWork(max: nat, f: Phase): int {
    match f
    case Waiting => 0
    case Received => 7 * max
    case Redialling(p) => 7 * Left(max, p) + 6
    case Loading(p) => 7 * Left(max, p) + 5
    case Querying(p) => 7 * Left(max, p) + 4
    case Comparing(p, _) => 7 * Left(max, p) + 3
    case Replacing(p) => 7 * Left(max, p) + 2
    case Unreachable(p) => 7 * Left(max, p) + 1
    case Sleeping(p, _) => 7 * Left(max, p)
  }

  /** Steps of the goroutines that are still due: every call that found a restart may lead to a whole pass. */
  function Work(max: nat, s: State): int {
    s.storing * (7 * max + 3) + s.kicking * (7 * max + 2) + (if s.kick then 7 * max + 1 else 0)
        + PhaseWork(max, s.phase)
  }

  predicate InBudget(max: nat, s: State) {
    Recovering(s.phase) ==> 1 <= s.phase.p.tries <= max && (s.phase.Sleeping? ==> s.phase.p.tries < max)
  }

  lemma InvInBudget(c: Config, s: State)
    requires c.every > 0 && Inv(c, s)
    ensures InBudget(c.MaxTries(), s)
  {
    if Recovering(s.phase) {
      QuotientBound(s.phase.p.tries - 2, c.every, c.retryFor);
      if s.phase.Sleeping? { QuotientBound(s.phase.p.tries - 1, c.every, c.retryFor); }
    }
  }

  lemma WorkIsLeft(max: nat, s: State)
    requires InBudget(max, s)
    ensures Work(max, s) >= 0
  {
    assert s.storing * (7 * max + 3) >= 0 && s.kicking * (7 * max + 2) >= 0;
  }

  lemma NoterWorks(c: Config, max: nat, s: State, e: Step)
    requires (e.StoreFlag? || e.NoterKicks?) && Enabled(c, s, e)
    ensures Work(max, Next(c, s, e)) < Work(max, s)
  {
    var a, b := 7 * max + 3, 7 * max + 2;
    if e.StoreFlag? {
      assert s.storing * a == (s.storing - 1) * a + a;
      assert (s.kicking + 1) * b == s.kicking * b + b;
    } else {
      assert s.kicking * b == (s.kicking - 1) * b + b;
    }
  }

  /** The steps within one try keep the pass they belong to, and move on. */
  lemma TryWorks(c: Config, max: nat, s: State, e: Step)
    requires InBudget(max, s) && Enabled(c, s, e)
    requires e.Reconnect? || e.Load? || e.Query? || e.Compare?
    ensures PhaseWork(max, WorkerNext(c, s, e).phase) < PhaseWork(max, s.phase)
  {
    var left := Left(max, s.phase.p);
    assert left >= 0;
  }

  /** So does the outcome of a replacement. */
  lemma ReplaceWorks(c: Config, max: nat, s: State, e: Step)
    requires InBudget(max, s) && Enabled(c, s, e)
    requires e.ReplaceApplied? || e.ReplaceRefused? || e.ReplaceLost?
    ensures PhaseWork(max, WorkerNext(c, s, e).phase) < PhaseWork(max, s.phase)
  {
    var left := Left(max, s.phase.p);
    assert left >= 0;
  }

  /** The steps between tries use one up, or end the pass. */
  lemma RetryWorks(c: Config, max: nat, s: State, e: Step)
    requires max >= 2 && InBudget(max, s) && SleeperRecovers(s) && Enabled(c, s, e)
    requires e.Swap? || e.GiveUp? || e.Sleep? || e.Wake?
    ensures PhaseWork(max, WorkerNext(c, s, e).phase) < PhaseWork(max, s.phase)
  {
  }

  lemma StepWorks(c: Config, max: nat, s: State, e: Step)
    requires max >= 2 && InBudget(max, s) && SleeperRecovers(s)
    requires Enabled(c, s, e) && !Environment(e)
    ensures Work(max, Next(c, s, e)) < Work(max, s)
  {
    if e.StoreFlag? || e.NoterKicks? {
      NoterWorks(c, max, s, e);
    } else if !e.Receive? {
      if e.Swap? || e.GiveUp? || e.Sleep? || e.Wake? { RetryWorks(c, max, s, e); }
      else if e.Reconnect? || e.Load? || e.Query? || e.Compare? { TryWorks(c, max, s, e); }
      else { ReplaceWorks(c, max, s, e); }
    }
  }

  /** Left alone, the reconciler is never stuck and comes to rest within a bounded number of its own steps. */
  lemma {:induction false} ComesToRest(c: Config, s: State, es: seq<Step>)
    requires c.every > 0 && Inv(c, s) && Runs(c, s, es)
    requires forall e :: e in es ==> !Environment(e)
    ensures |es| <= Work(c.MaxTries(), s)
    ensures Quiet(After(c, s, es)) || exists e :: !Environment(e) && Enabled(c, After(c, s, es), e)
    decreases es
  {
    InvInBudget(c, s);
    if es == [] {
      WorkIsLeft(c.MaxTries(), s);
      if !Quiet(s) { var e := Possible(c, s); }
    } else {
      assert es[0] in es;
      StepWorks(c, c.MaxTries(), s, es[0]);
      StepKeeps(c, s, es[0]);
      ComesToRest(c, Next(c, s, es[0]), es[1..]);
    }
  }

  /** Some step a goroutine can take when not at rest. */
  lemma Possible(c: Config, s: State) returns (e: Step)
    requires !Quiet(s) && SleeperRecovers(s)
    ensures !Environment(e) && Enabled(c, s, e)
  {
    e := if s.storing > 0 then StoreFlag
         else if s.kicking > 0 then NoterKicks
         else match s.phase
              case Waiting => Receive
              case Received => Swap
              case Redialling(_) => Reconnect
              case Loading(_) => Load(true)
              case Querying(_) => Query(true)
              case Comparing(_, _) => Compare
              case Replacing(_) => ReplaceRefused
              case Unreachable(p) => if p.Plain? || s.now > p.deadline then GiveUp else Sleep
              case Sleeping(_, until) => Wake(if until > s.now then until else s.now);
  }

  // ----- a pass that nobody disturbs -----

  /** What the network and vq-core make of one pass: answers to the load, the query and the replace. */
  datatype Answers = Answers(loaded: bool, reached: bool, acked: bool, accepted: bool, kept: seq<string>)

  function ReplaceStep(a: Answers): Step {
    if !a.acked then ReplaceLost(if a.accepted then Some(a.kept) else None)
    else if a.accepted then ReplaceApplied(a.kept) else ReplaceRefused
  }

  function CompareSteps(c: Config, core: seq<string>, a: Answers): seq<Step> {
    if SetEqual(core, c.desired) then [Compare] else [Compare] + [ReplaceStep(a)]
  }

  function QuerySteps(c: Config, core: seq<string>, a: Answers): seq<Step> {
    if a.reached then [Query(true)] + CompareSteps(c, core, a) else [Query(false)]
  }

  /** The steps of one pass from loading the list on. */
  function PassSteps(c: Config, core: seq<string>, a: Answers): seq<Step> {
    if !a.loaded || c.desired == [] then [Load(a.loaded)]
    else [Load(true)] + QuerySteps(c, core, a)
  }

  predicate Honest(c: Config, a: Answers) {
    a.accepted ==> Elems(a.kept) == Elems(c.desired)
  }

  /** Whether a pass counts as done: everything but an unreachable vq-core. */
  predicate Done(c: Config, core: seq<string>, a: Answers) {
    !a.loaded || c.desired == [] || (a.reached && (SetEqual(core, c.desired) || a.acked))
  }

  function CoreAfter(c: Config, core: seq<string>, a: Answers): seq<string> {
    if a.loaded && c.desired != [] && a.reached && !SetEqual(core, c.desired) && a.accepted then a.kept else core
  }

  lemma RunsOne(c: Config, s: State, e: Step)
    requires Enabled(c, s, e)
    ensures Runs(c, s, [e]) && After(c, s, [e]) == Next(c, s, e)
  {
  }

  lemma RunsMore(c: Config, s: State, e: Step, es: seq<Step>)
    requires Enabled(c, s, e) && Runs(c, Next(c, s, e), es)
    ensures Runs(c, s, [e] + es) && After(c, s, [e] + es) == After(c, Next(c, s, e), es)
  {
    assert ([e] + es)[1..] == es;
  }

  /** A pass leaves everything alone but vq-core's list, the phase, and whether recovery was given up. */
  predicate OnlyPass(s: State, t: State) {
    t == s.(core := t.core, phase := t.phase, gaveUp := t.gaveUp)
  }

  lemma ReplaceIsARun(c: Config, s: State, a: Answers)
    requires s.phase.Replacing? && Honest(c, a)
    ensures Enabled(c, s, ReplaceStep(a)) && OnlyPass(s, Next(c, s, ReplaceStep(a)))
    ensures Next(c, s, ReplaceStep(a)).core == if a.accepted then a.kept else s.core
    ensures Next(c, s, ReplaceStep(a)).phase == if a.acked then Waiting else Unreachable(s.phase.p)
  {
  }

  lemma CompareIsARun(c: Config, s: State, a: Answers)
    requires s.phase.Comparing? && s.phase.current == s.core && Honest(c, a)
    ensures Runs(c, s, CompareSteps(c, s.core, a))
    ensures var t := After(c, s, CompareSteps(c, s.core, a));
            if SetEqual(s.core, c.desired) then t.core == s.core && t.phase == Waiting
            else
              && t.core == (if a.accepted then a.kept else s.core)
              && t.phase == if a.acked then Waiting else Unreachable(s.phase.p)
    ensures OnlyPass(s, After(c, s, CompareSteps(c, s.core, a)))
  {
    if SetEqual(s.core, c.desired) {
      RunsOne(c, s, Compare);
    } else {
      var s1 := s.(phase := Replacing(s.phase.p));
      ReplaceIsARun(c, s1, a);
      RunsOne(c, s1, ReplaceStep(a));
      RunsMore(c, s, Compare, [ReplaceStep(a)]);
    }
  }

  lemma QueryIsARun(c: Config, s: State, a: Answers)
    requires s.phase.Querying? && Honest(c, a) && a.loaded && c.desired != []
    ensures Runs(c, s, QuerySteps(c, s.core, a))
    ensures After(c, s, QuerySteps(c, s.core, a)).core == CoreAfter(c, s.core, a)
    ensures After(c, s, QuerySteps(c, s.core, a)).phase
            == if Done(c, s.core, a) then Waiting else Unreachable(s.phase.p)
    ensures OnlyPass(s, After(c, s, QuerySteps(c, s.core, a)))
  {
    if a.reached {
      CompareIsARun(c, s.(phase := Comparing(s.phase.p, s.core)), a);
      RunsMore(c, s, Query(true), CompareSteps(c, s.core, a));
    } else {
      RunsOne(c, s, Query(false));
    }
  }

  /** Undisturbed, a pass is a run of the protocol that ends waiting when done and unreachable when not. */
  lemma PassIsARun(c: Config, s: State, a: Answers)
    requires s.phase.Loading? && Honest(c, a)
    ensures Runs(c, s, PassSteps(c, s.core, a))
    ensures After(c, s, PassSteps(c, s.core, a)).core == CoreAfter(c, s.core, a)
    ensures After(c, s, PassSteps(c, s.core, a)).phase == if Done(c, s.core, a) then Waiting else Unreachable(s.phase.p)
    ensures OnlyPass(s, After(c, s, PassSteps(c, s.core, a)))
  {
    if !a.loaded || c.desired == [] {
      RunsOne(c, s, Load(a.loaded));
    } else {
      var s1 := s.(phase := Querying(s.phase.p));
      QueryIsARun(c, s1, a);
      RunsMore(c, s, Load(true), QuerySteps(c, s.core, a));
    }
  }

  /** A pass that reached an obliging vq-core leaves it with the persisted set, whatever it held. */
  lemma AcceptedPassRestores(c: Config, core: seq<string>, a: Answers)
    requires NoRepeats(c.desired) && Honest(c, a) && a.loaded && a.reached && a.accepted && c.desired != []
    ensures Elems(CoreAfter(c, core, a)) == Elems(c.desired)
  {
    if SetEqual(core, c.desired) { SetEqualSound(core, c.desired); }
  }

  // ----- why the persisted list must not repeat a pattern -----

  lemma {:induction false} RunsConcat(c: Config, s: State, es: seq<Step>, fs: seq<Step>)
    requires Runs(c, s, es) && Runs(c, After(c, s, es), fs)
    ensures Runs(c, s, es + fs) && After(c, s, es + fs) == After(c, After(c, s, es), fs)
    decreases es
  {
    if es == [] {
      ConcatNothing(fs);
    } else {
      RunsConcat(c, Next(c, s, es[0]), es[1..], fs);
      FirstOfConcat(es, fs);
    }
  }

  /** vq-core restarts, somebody else sets its list, and the next heartbeat reveals the restart. */
  lemma NoticeRun(c: Config, s: State, list: seq<string>) returns (es: seq<Step>)
    requires Initial(s) && s.uptime > 0
    ensures Runs(c, s, es)
    ensures After(c, s, es) == s.(core := list, uptime := 0, lastUptime := Some(0), restarted := true, kick := true,
            noticed := true)
  {
    var s1 := s.(lastUptime := Some(s.uptime));
    var s2 := s1.(core := [], uptime := 0, unheard := true);
    var s3 := s2.(core := list);
    var s4 := s3.(lastUptime := Some(0), unheard := false, storing := 1, noticed := true);
    var s5 := s4.(storing := 0, kicking := 1, restarted := true);
    RunsOne(c, s5, NoterKicks);
    RunsMore(c, s4, StoreFlag, [NoterKicks]);
    RunsMore(c, s3, Heartbeat, [StoreFlag] + [NoterKicks]);
    RunsMore(c, s2, OthersEdit(list), [Heartbeat] + ([StoreFlag] + [NoterKicks]));
    es := [OthersEdit(list)] + ([Heartbeat] + ([StoreFlag] + [NoterKicks]));
    RunsMore(c, s1, CoreRestarts, es);
    es := [CoreRestarts] + es;
    RunsMore(c, s, Heartbeat, es);
    es := [Heartbeat] + es;
  }

  lemma LookRun(c: Config, s: State) returns (es: seq<Step>)
    requires s.phase.Loading? && c.desired != [] && SetEqual(s.core, c.desired)
    ensures Runs(c, s, es) && After(c, s, es) == s.(phase := Waiting, gaveUp := false)
  {
    var s1 := s.(phase := Querying(s.phase.p));
    var s2 := s1.(phase := Comparing(s.phase.p, s.core));
    RunsOne(c, s2, Compare);
    RunsMore(c, s1, Query(true), [Compare]);
    es := [Query(true)] + [Compare];
    RunsMore(c, s, Load(true), es);
    es := [Load(true)] + es;
  }

  /** The pass that follows finds the list good enough. */
  lemma MisledRun(c: Config, s: State) returns (es: seq<Step>)
    requires s.phase.Waiting? && s.kick && s.restarted && c.desired != [] && SetEqual(s.core, c.desired)
    ensures Runs(c, s, es)
    ensures After(c, s, es) == s.(kick := false, restarted := false, gaveUp := false)
  {
    var p := Restarted(s.now + c.retryFor, 1);
    var s1 := s.(kick := false, phase := Received);
    var s2 := s1.(restarted := false, phase := Redialling(p));
    es := LookRun(c, s2.(phase := Loading(p)));
    RunsMore(c, s2, Reconnect, es);
    es := [Reconnect] + es;
    RunsMore(c, s1, Swap, es);
    es := [Swap] + es;
    RunsMore(c, s, Receive, es);
    es := [Receive] + es;
  }

  const FRESH: State := State(0, [], 1, None, 0, 0, false, false, Waiting, false, false, false)

  /** With a repeated pattern in the persisted list some run comes to rest on a wrong list. */
  lemma RepeatsMislead(c: Config) returns (es: seq<Step>)
    requires !NoRepeats(c.desired)
    ensures RestsAfterNotice(c, FRESH, es) && !Synced(c, After(c, FRESH, es))
  {
    SetEqualExact(c.desired);
    var list :| SetEqual(list, c.desired) && Elems(list) != Elems(c.desired);
    var fs := NoticeRun(c, FRESH, list);
    var gs := MisledRun(c, After(c, FRESH, fs));
    RunsConcat(c, FRESH, fs, gs);
    es := fs + gs;
    NoticedMeans(c, FRESH, es);
  }

  /** Every rest after a notice in a run from s has vq-core in sync. */
  ghost predicate AlwaysSynced(c: Config, s: State) {
    forall es :: RestsAfterNotice(c, s, es) ==> Synced(c, After(c, s, es))
  }

  /** The reconciler converges in all runs exactly for persisted lists without repetitions. */
  lemma ConvergesExactly(c: Config)
    ensures (forall s :: Initial(s) ==> AlwaysSynced(c, s)) <==> NoRepeats(c.desired)
  {
    if NoRepeats(c.desired) {
      forall s | Initial(s) ensures AlwaysSynced(c, s) {
        forall es | RestsAfterNotice(c, s, es) ensures Synced(c, After(c, s, es)) { RestMeansSynced(c, s, es); }
      }
    } else {
      var es := RepeatsMislead(c);
      assert Initial(FRESH) && !AlwaysSynced(c, FRESH);
    }
  }
}

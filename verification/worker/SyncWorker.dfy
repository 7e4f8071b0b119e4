/** The reconciler's own code: its methods run undisturbed, tied to the protocol they take part in. */
module SyncWorker {
  import opened Lists
  import opened Results
  import opened TrackSync

  /** The comparison, built up in a set. */
  method EqualSets(a: seq<string>, b: seq<string>) returns (r: bool)
    ensures r == SetEqual(a, b)
  {
    if |a| != |b| { return false; }
    var members: set<string> := {};
    for i := 0 to |a|
      invariant members == Elems(a[..i])
    {
      assert Elems(a[..i + 1]) == Elems(a[..i]) + {a[i]};
      members := members + {a[i]};
    }
    assert a[..|a|] == a;
    for i := 0 to |b|
      invariant Elems(b[..i]) <= Elems(a)
    {
      assert Elems(b[..i + 1]) == Elems(b[..i]) + {b[i]};
      if b[i] !in members {
        assert b[i] in Elems(b);
        return false;
      }
    }
    assert b[..|b|] == b;
    return true;
  }

  /** vq-core behind its control socket. */
  class Core {
    var patterns: seq<string>

    constructor (list: seq<string>)
      ensures patterns == list
    {
      patterns := list;
    }
  }

  /** One try of a pass: what the network and vq-core made of it, and when it was over. */
  datatype Try = Try(answers: Answers, at: int)

  predicate Follows(c: Config, world: nat -> Try, k: nat) {
    world(k).at + c.every <= world(k + 1).at
  }

  /** Tries follow each other at least a retry interval apart. */
  ghost predicate Paced(c: Config, start: int, world: nat -> Try) {
    start <= world(0).at && forall k: nat :: Follows(c, world, k)
  }

  ghost predicate AllHonest(c: Config, world: nat -> Try) {
    forall k: nat :: Honest(c, world(k).answers)
  }

  /** vq-core's list after the first n tries. */
  function Tried(c: Config, core: seq<string>, world: nat -> Try, n: nat): seq<string> {
    if n == 0 then core else CoreAfter(c, Tried(c, core, world, n - 1), world(n - 1).answers)
  }

  /** Try number n succeeded. */
  predicate Succeeds(c: Config, core: seq<string>, world: nat -> Try, n: nat) {
    Done(c, Tried(c, core, world, n), world(n).answers)
  }

  /** Try number n failed in time for another one. */
  predicate MayRetry(c: Config, core: seq<string>, world: nat -> Try, n: nat, start: int) {
    !Succeeds(c, core, world, n) && world(n).at <= start + c.retryFor
  }

  lemma {:induction false} PacedAt(c: Config, start: int, world: nat -> Try, k: nat)
    requires Paced(c, start, world)
    ensures start + k * c.every <= world(k).at
  {
    if k > 0 {
      PacedAt(c, start, world, k - 1);
      assert k * c.every == (k - 1) * c.every + c.every;
      assert Follows(c, world, k - 1);
    }
  }

  lemma TriesWithin(c: Config, start: int, world: nat -> Try, tries: nat)
    requires c.every > 0 && Paced(c, start, world) && tries >= 1
    requires tries >= 2 ==> world(tries - 2).at <= start + c.retryFor
    ensures tries <= c.MaxTries()
  {
    if tries >= 2 {
      PacedAt(c, start, world, tries - 2);
      QuotientBound(tries - 2, c.every, c.retryFor);
    }
  }

  class TrackSyncWorker {
    const config: Config
    var lastUptime: Option<nat>
    var restarted: bool
    var kick: bool

    constructor (config: Config)
      ensures this.config == config && lastUptime == None && !restarted && !kick
    {
      this.config := config;
      lastUptime, restarted, kick := None, false, false;
    }

    /** A kick that finds the slot taken changes nothing. */
    method Kick()
      modifies this`kick
      ensures kick
    {
      if !kick { kick := true; }
    }

    method NoteUptime(uptime: nat)
      modifies this
      ensures lastUptime == Some(uptime)
      ensures var found := old(lastUptime).Some? && uptime < old(lastUptime).value;
              restarted == (old(restarted) || found) && kick == (old(kick) || found)
    {
      var found := lastUptime.Some? && uptime < lastUptime.value;
      lastUptime := Some(uptime);
      if found {
        restarted := true;
        Kick();
      }
    }

    /** One pass; false only when vq-core could not be reached. */
    method SyncOnce(core: Core, a: Answers) returns (done: bool)
      modifies core
      ensures done == Done(config, old(core.patterns), a)
      ensures core.patterns == CoreAfter(config, old(core.patterns), a)
    {
      if !a.loaded || |config.desired| == 0 { return true; }
      if !a.reached { return false; }
      var same := EqualSets(core.patterns, config.desired);
      if same { return true; }
      if a.accepted { core.patterns := a.kept; }
      return a.acked;
    }

    /**
     * A kicked pass. After a restart it tries until one try succeeds or is over past the deadline, so at most
     * retryFor / every + 2 times; otherwise it tries once.
     */
    method SyncAfterKick(core: Core, start: int, world: nat -> Try) returns (tries: nat, done: bool)
      requires config.every > 0 && Paced(config, start, world)
      modifies this`restarted, core
      ensures !restarted
      ensures 1 <= tries <= if old(restarted) then config.MaxTries() else 1
      ensures core.patterns == Tried(config, old(core.patterns), world, tries)
      ensures done == Succeeds(config, old(core.patterns), world, tries - 1)
      ensures forall k :: 0 <= k < tries - 1 ==> MayRetry(config, old(core.patterns), world, k, start)
      ensures old(restarted) && !done ==> world(tries - 1).at > start + config.retryFor
      ensures old(restarted) ==> EndsAt(config, old(core.patterns), world, 0, tries, start)
    {
      if !restarted {
        done := SyncOnce(core, world(0).answers);
        assert Tried(config, old(core.patterns), world, 0) == old(core.patterns);
        return 1, done;
      }
      restarted := false;
      var deadline := start + config.retryFor;
      tries := 0;
      while true
        invariant !restarted
        invariant core.patterns == Tried(config, old(core.patterns), world, tries)
        invariant forall k :: 0 <= k < tries ==> MayRetry(config, old(core.patterns), world, k, start)
        decreases deadline - world(tries).at
      {
        done := SyncOnce(core, world(tries).answers);
        tries := tries + 1;
        if done || world(tries - 1).at > deadline { break; }
        assert Follows(config, world, tries - 1);
      }
      assert tries >= 2 ==> MayRetry(config, old(core.patterns), world, tries - 2, start);
      TriesWithin(config, start, world, tries);
    }
  }

  // ----- the methods within the protocol -----

  /** The steps of NoteUptime when nothing comes between them. */
  function NoteSteps(s: State): seq<Step> {
    if Detects(s) then [Heartbeat, StoreFlag, NoterKicks] else [Heartbeat]
  }

  /** Run undisturbed, NoteUptime leaves the state its contract gives, and no call half done. */
  lemma NoteIsARun(c: Config, s: State)
    ensures Runs(c, s, NoteSteps(s))
    ensures var t := After(c, s, NoteSteps(s));
            && t.lastUptime == Some(s.uptime) && t.restarted == (s.restarted || Detects(s))
               && t.kick == (s.kick || Detects(s))
            && t.storing == s.storing && t.kicking == s.kicking && t.phase == s.phase && t.core == s.core
  {
    var s1 := Next(c, s, Heartbeat);
    RunsOne(c, s, Heartbeat);
    if Detects(s) {
      var s2 := Next(c, s1, StoreFlag);
      RunsOne(c, s2, NoterKicks);
      RunsMore(c, s1, StoreFlag, [NoterKicks]);
      RunsMore(c, s, Heartbeat, [StoreFlag] + [NoterKicks]);
      assert NoteSteps(s) == [Heartbeat] + ([StoreFlag] + [NoterKicks]);
    }
  }

  /** Nothing but the worker's own steps and the passing of time. */
  predicate Undisturbed(es: seq<Step>) {
    forall e :: e in es ==> e.Passes? || WorkerStep(e)
  }

  /** Only the clock, vq-core's list and the worker itself have moved. */
  predicate OnlyWorker(s: State, t: State) {
    t == s.(now := t.now, uptime := t.uptime, core := t.core, restarted := t.restarted, phase := t.phase,
           gaveUp := t.gaveUp)
  }

  lemma PassIsUndisturbed(c: Config, core: seq<string>, a: Answers)
    ensures Undisturbed(PassSteps(c, core, a))
  {
  }

  lemma UndisturbedConcat(es: seq<Step>, fs: seq<Step>)
    requires Undisturbed(es) && Undisturbed(fs)
    ensures Undisturbed(es + fs)
  {
  }

  /** A pass that is over at a given time, from loading the list on. */
  lemma PassUntil(c: Config, s: State, try: Try) returns (es: seq<Step>)
    requires s.phase.Loading? && Honest(c, try.answers) && s.now <= try.at
    ensures Runs(c, s, es) && Undisturbed(es)
    ensures var t, done := After(c, s, es), Done(c, s.core, try.answers);
            && t.now == try.at && t.core == CoreAfter(c, s.core, try.answers) && t.restarted == s.restarted
            && t.phase == (if done then Waiting else Unreachable(s.phase.p)) && OnlyWorker(s, t)
  {
    var s1 := Advance(s, try.at - s.now);
    PassIsARun(c, s1, try.answers);
    PassIsUndisturbed(c, s.core, try.answers);
    es := PassSteps(c, s.core, try.answers);
    RunsMore(c, s, Passes(try.at - s.now), es);
    UndisturbedConcat([Passes(try.at - s.now)], es);
    es := [Passes(try.at - s.now)] + es;
  }

  /** One step, and a run after it. */
  lemma StepThen(c: Config, s: State, e: Step, fs: seq<Step>) returns (es: seq<Step>)
    requires WorkerStep(e) && Enabled(c, s, e) && Runs(c, Next(c, s, e), fs) && Undisturbed(fs)
    ensures Runs(c, s, es) && Undisturbed(es) && After(c, s, es) == After(c, Next(c, s, e), fs)
  {
    RunsMore(c, s, e, fs);
    UndisturbedConcat([e], fs);
    es := [e] + fs;
  }

  /** The tries from number k on end where the loop ends: at the first success, or past the deadline. */
  predicate EndsAt(c: Config, core: seq<string>, world: nat -> Try, k: nat, tries: nat, start: int) {
    && k < tries && (forall j: nat :: k <= j < tries - 1 ==> MayRetry(c, core, world, j, start))
    && (Succeeds(c, core, world, tries - 1) || world(tries - 1).at > start + c.retryFor)
  }

  lemma {:induction false} RetriesAreARun(
    c: Config, s: State, core: seq<string>, world: nat -> Try, k: nat, tries: nat, start: int)
    returns (es: seq<Step>)
    requires AllHonest(c, world) && (forall j: nat :: Follows(c, world, j)) && EndsAt(c, core, world, k, tries, start)
    requires s.phase == Redialling(Restarted(start + c.retryFor, k + 1))
    requires s.core == Tried(c, core, world, k) && s.now <= world(k).at
    ensures Runs(c, s, es) && Undisturbed(es)
    ensures var t := After(c, s, es);
            && t.phase == Waiting && t.core == Tried(c, core, world, tries) && t.now == world(tries - 1).at
            && t.restarted == s.restarted && OnlyWorker(s, t)
    decreases tries - k
  {
    var loading := Next(c, s, Reconnect);
    assert Honest(c, world(k).answers);
    var pass := PassUntil(c, loading, world(k));
    var ended := After(c, loading, pass);
    var rest := RetryOrStop(c, ended, core, world, k, tries, start);
    RunsConcat(c, loading, pass, rest);
    UndisturbedConcat(pass, rest);
    es := StepThen(c, s, Reconnect, pass + rest);
  }

  /** What follows try number k. */
  lemma {:induction false} RetryOrStop(
    c: Config, s: State, core: seq<string>, world: nat -> Try, k: nat, tries: nat, start: int)
    returns (es: seq<Step>)
    requires AllHonest(c, world) && (forall j: nat :: Follows(c, world, j)) && EndsAt(c, core, world, k, tries, start)
    requires s.phase
             == if Succeeds(c, core, world, k) then Waiting else Unreachable(Restarted(start + c.retryFor, k + 1))
    requires s.core == Tried(c, core, world, k + 1) && s.now == world(k).at
    ensures Runs(c, s, es) && Undisturbed(es)
    ensures var t := After(c, s, es);
            && t.phase == Waiting && t.core == Tried(c, core, world, tries) && t.now == world(tries - 1).at
            && t.restarted == s.restarted && OnlyWorker(s, t)
    decreases tries - k, -1
  {
    if k == tries - 1 {
      if Succeeds(c, core, world, k) { return []; }
      RunsOne(c, s, GiveUp);
      return [GiveUp];
    }
    assert MayRetry(c, core, world, k, start) && Follows(c, world, k);
    var asleep := Next(c, s, Sleep);
    var wake := Wake(s.now + c.every);
    es := RetriesAreARun(c, Next(c, asleep, wake), core, world, k + 1, tries, start);
    es := StepThen(c, asleep, wake, es);
    es := StepThen(c, s, Sleep, es);
  }

  /**
   A kicked pass is a run of the protocol: with the tries its contract allows, each over when the world says, it takes
   the flag, and leaves the worker waiting and vq-core with the list its contract gives.
  */
  lemma SyncIsARun(c: Config, s: State, world: nat -> Try, tries: nat) returns (es: seq<Step>)
    requires s.phase.Received? && Paced(c, s.now, world) && AllHonest(c, world)
    requires if s.restarted then EndsAt(c, s.core, world, 0, tries, s.now) else tries == 1
    ensures Runs(c, s, es) && Undisturbed(es)
    ensures var t := After(c, s, es);
            && t.phase == Waiting && t.core == Tried(c, s.core, world, tries) && t.now == world(tries - 1).at
            && !t.restarted && OnlyWorker(s, t)
  {
    var swapped := Next(c, s, Swap);
    assert Tried(c, s.core, world, 0) == s.core;
    if s.restarted {
      es := RetriesAreARun(c, swapped, s.core, world, 0, tries, s.now);
    } else {
      es := PlainIsARun(c, swapped, world(0));
    }
    es := StepThen(c, s, Swap, es);
  }

  /** A plain pass tries once and gives up when vq-core cannot be reached. */
  lemma PlainIsARun(c: Config, s: State, try: Try) returns (es: seq<Step>)
    requires s.phase == Loading(Plain) && Honest(c, try.answers) && s.now <= try.at
    ensures Runs(c, s, es) && Undisturbed(es)
    ensures var t := After(c, s, es);
            && t.phase == Waiting && t.core == CoreAfter(c, s.core, try.answers) && t.now == try.at
            && t.restarted == s.restarted && OnlyWorker(s, t)
  {
    es := PassUntil(c, s, try);
    var ended := After(c, s, es);
    if ended.phase.Unreachable? {
      RunsOne(c, ended, GiveUp);
      RunsConcat(c, s, es, [GiveUp]);
      UndisturbedConcat(es, [GiveUp]);
      es := es + [GiveUp];
    }
  }

  /** The first try that an obliging vq-core answers restores the persisted set, whatever the tries before it did. */
  lemma RecoveryRestores(c: Config, core: seq<string>, world: nat -> Try, n: nat)
    requires NoRepeats(c.desired) && c.desired != [] && AllHonest(c, world)
    requires world(n).answers.loaded && world(n).answers.reached && world(n).answers.accepted
    ensures Elems(Tried(c, core, world, n + 1)) == Elems(c.desired)
  {
    AcceptedPassRestores(c, Tried(c, core, world, n), world(n).answers);
  }
}

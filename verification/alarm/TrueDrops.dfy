/** What the drop history counts, measured against the packets a capture really dropped and the restarts of vq-core. */
module TrueDrops {
  import opened DropHistory

  /** What happened between two statistics events: a restart of vq-core or not, and the packets dropped since. */
  datatype Second = Second(at: int, restarted: bool, dropped: nat)

  /** The counter vq-core reports: it adds up the drops, and a restart begins at nothing. */
  ghost function Counter(start: nat, ss: seq<Second>, k: nat): nat
    requires k < |ss|
  {
    if k == 0 then start
    else if ss[k].restarted then ss[k].dropped
    else Counter(start, ss, k - 1) + ss[k].dropped
  }

  /** The events report these seconds; tracking begins with the first, whatever the counter is then. */
  ghost predicate Reports(h: seq<Event>, start: nat, ss: seq<Second>) {
    |h| == |ss| && forall k :: 0 <= k < |h| ==> h[k] == Event(ss[k].at, Counter(start, ss, k))
  }

  /** The packets dropped after event b, up to event k. */
  function Dropped(ss: seq<Second>, b: nat, k: nat): nat
    requires b <= k < |ss|
    decreases k
  {
    if k == b then 0 else Dropped(ss, b, k - 1) + ss[k].dropped
  }

  /** If vq-core restarted before event k, the counter shows it, or there was nothing in it to lose. */
  predicate Shows(h: seq<Event>, ss: seq<Second>, k: nat)
    requires 0 < k < |h| == |ss|
  {
    ss[k].restarted ==> h[k].raw < h[k - 1].raw || h[k - 1].raw == 0
  }

  lemma IncreaseIs(h: seq<Event>, start: nat, ss: seq<Second>, k: nat)
    requires Reports(h, start, ss) && 0 < k < |h|
    ensures Increase(h[k - 1].raw, h[k].raw) <= ss[k].dropped
    ensures Increase(h[k - 1].raw, h[k].raw) == ss[k].dropped <==> Shows(h, ss, k)
  {
  }

  /** Drops are never over-counted, and all are counted exactly when every restart shows. */
  lemma {:induction false} TotalCounts(h: seq<Event>, start: nat, ss: seq<Second>, k: nat)
    requires Reports(h, start, ss) && k < |h|
    ensures TotalAt(h, k) <= Dropped(ss, 0, k)
    ensures TotalAt(h, k) == Dropped(ss, 0, k) <==> forall i :: 0 < i <= k ==> Shows(h, ss, i)
    decreases k
  {
    if k > 0 {
      TotalCounts(h, start, ss, k - 1);
      IncreaseIs(h, start, ss, k);
    }
  }

  lemma {:induction false} DroppedSplits(ss: seq<Second>, b: nat, k: nat)
    requires b <= k < |ss|
    ensures Dropped(ss, 0, k) == Dropped(ss, 0, b) + Dropped(ss, b, k)
    decreases k
  {
    if k > b { DroppedSplits(ss, b, k - 1); }
  }

  /**
   When every restart shows, the answer to a window is the number of packets dropped after an event that measures it:
   the last one at or before the window's start, or one less than the spacing before that.
  */
  lemma WithinCounts(
    h: seq<Event>, s: seq<Sample>, r: seq<int>, keep: nat, window: nat, now: int, start: nat, ss: seq<Second>)
    returns (b: nat)
    requires Represents(h, s, r, keep) && h != [] && h[|h| - 1].at <= now && window <= keep
    requires Reports(h, start, ss) && forall i :: 0 < i < |h| ==> Shows(h, ss, i)
    ensures Measures(h, now - window, b)
    ensures s[|s| - 1].total - s[Base(s, now - window)].total == Dropped(ss, b, |ss| - 1)
  {
    b := WithinExact(h, s, r, keep, window, now);
    TotalCounts(h, start, ss, |h| - 1);
    TotalCounts(h, start, ss, b);
    DroppedSplits(ss, b, |ss| - 1);
  }

  // ----- the counter of all capture devices -----

  function Sum(ns: seq<nat>): nat {
    if ns == [] then 0 else Sum(ns[..|ns| - 1]) + ns[|ns| - 1]
  }

  function HardwareDrops(cs: seq<Capturer>): (ns: seq<nat>)
    ensures |ns| == |cs|
  {
    seq(|cs|, i requires 0 <= i < |cs| => cs[i].droppedHw)
  }

  function BufferFailures(cs: seq<Capturer>): (ns: seq<nat>)
    ensures |ns| == |cs|
  {
    seq(|cs|, i requires 0 <= i < |cs| => cs[i].mbufFailed)
  }

  /** It is the hardware drops of all devices and the buffer failures of all devices. */
  lemma {:induction false} CounterSums(cs: seq<Capturer>)
    ensures DropsOf(cs) == Sum(HardwareDrops(cs)) + Sum(BufferFailures(cs))
  {
    if cs != [] {
      var front := cs[..|cs| - 1];
      CounterSums(front);
      assert HardwareDrops(cs)[..|cs| - 1] == HardwareDrops(front);
      assert BufferFailures(cs)[..|cs| - 1] == BufferFailures(front);
    }
  }
}

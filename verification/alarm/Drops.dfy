/**
 The drop history: a bounded, thinned record of a cumulative counter that answers how much was
 dropped in the last window. Times are nanoseconds; counters are unbounded.
*/
module DropHistory {
  /** One instance-statistics event: when it came and the counter it carried. */
  datatype Event = Event(at: int, raw: nat)

  datatype Sample = Sample(at: int, raw: nat, total: nat)

  const DROP_SPACING: int := 5_000_000_000

  predicate NotAfter(t: int, u: int) {
    t <= u
  }

  predicate Apart(t: int, u: int) {
    u - t >= DROP_SPACING
  }

  ghost predicate InOrder(h: seq<Event>) {
    forall i, j {:trigger NotAfter(h[i].at, h[j].at)} :: 0 <= i <= j < |h| ==> NotAfter(h[i].at, h[j].at)
  }

  // ----- the full history -----

  function Increase(before: nat, now: nat): nat {
    if now >= before then now - before else now
  }

  /** Drops from the first event up to event `k`; a counter that went back restarted from zero. */
  function TotalAt(h: seq<Event>, k: nat): nat
    requires k < |h|
  {
    if k == 0 then 0 else TotalAt(h, k - 1) + Increase(h[k - 1].raw, h[k].raw)
  }

  function Total(h: seq<Event>): nat
    requires h != []
  {
    TotalAt(h, |h| - 1)
  }

  lemma {:induction false} TotalGrows(h: seq<Event>, i: nat, j: nat)
    requires i <= j < |h|
    ensures TotalAt(h, i) <= TotalAt(h, j)
    decreases j
  {
    if i < j { TotalGrows(h, i, j - 1); }
  }

  lemma {:induction false} TotalAtPrefix(h: seq<Event>, e: Event, k: nat)
    requires k < |h|
    ensures TotalAt(h + [e], k) == TotalAt(h, k)
  {
    if k > 0 { TotalAtPrefix(h, e, k - 1); }
  }

  /** The last event at or before `t`, of those up to event `k`. */
  function LatestUpTo(h: seq<Event>, k: nat, t: int): (j: nat)
    requires k < |h| && h[0].at <= t
    ensures j <= k && h[j].at <= t && forall i :: j < i <= k ==> h[i].at > t
  {
    if h[k].at <= t then k else LatestUpTo(h, k - 1, t)
  }

  function LatestAt(h: seq<Event>, t: int): (j: nat)
    requires h != [] && h[0].at <= t
    ensures j < |h| && h[j].at <= t && forall i :: j < i < |h| ==> h[i].at > t
  {
    LatestUpTo(h, |h| - 1, t)
  }

  // ----- the history kept -----

  function NextSample(s: seq<Sample>, now: int, raw: nat): Sample {
    Sample(now, raw, if s == [] then 0 else s[|s| - 1].total + Increase(s[|s| - 1].raw, raw))
  }

  /** Whether the newest sample is overwritten rather than kept. */
  predicate Overwrites(s: seq<Sample>, now: int) {
    |s| > 1 && now - s[|s| - 2].at < DROP_SPACING
  }

  function Stored(s: seq<Sample>, x: Sample): (r: seq<Sample>)
    ensures r != [] && r[|r| - 1] == x
  {
    if Overwrites(s, x.at) then s[..|s| - 1] + [x] else s + [x]
  }

  /** The first sample from `i` on with no successor before the cutoff. */
  function Stale(s: seq<Sample>, i: nat, cutoff: int): (r: nat)
    requires i < |s|
    ensures i <= r < |s|
    ensures r > i ==> s[r].at < cutoff
    ensures r + 1 < |s| ==> s[r + 1].at >= cutoff
    decreases |s| - i
  {
    if i + 1 < |s| && s[i + 1].at < cutoff then Stale(s, i + 1, cutoff) else i
  }

  function Fresh(s: seq<Sample>, cutoff: int): (r: seq<Sample>)
    requires s != []
    ensures r != []
  {
    s[Stale(s, 0, cutoff)..]
  }

  function Noted(s: seq<Sample>, e: Event, keep: nat): (r: seq<Sample>)
    ensures r != []
  {
    Fresh(Stored(s, NextSample(s, e.at, e.raw)), e.at - keep)
  }

  /** The samples after the events `h`. */
  function Run(h: seq<Event>, keep: nat): seq<Sample> {
    if h == [] then [] else Noted(Run(h[..|h| - 1], keep), h[|h| - 1], keep)
  }

  /** The event numbers `r` of the samples `s` once event `n`, at time `at`, is stored too. */
  ghost function StoredSources(s: seq<Sample>, r: seq<int>, at: int, n: nat): (q: seq<int>)
    requires |s| == |r|
    ensures |q| == if Overwrites(s, at) then |r| else |r| + 1
  {
    if Overwrites(s, at) then r[..|r| - 1] + [n] else r + [n]
  }

  ghost function NotedSources(s: seq<Sample>, r: seq<int>, e: Event, n: nat, keep: nat): (q: seq<int>)
    requires |s| == |r|
    ensures |q| == |Noted(s, e, keep)|
  {
    StoredSources(s, r, e.at, n)[Stale(Stored(s, NextSample(s, e.at, e.raw)), 0, e.at - keep)..]
  }

  /** Which event each sample was taken from. */
  ghost function Sources(h: seq<Event>, keep: nat): (r: seq<int>)
    ensures |r| == |Run(h, keep)|
  {
    if h == [] then []
    else
      var front := h[..|h| - 1];
      NotedSources(Run(front, keep), Sources(front, keep), h[|h| - 1], |front|, keep)
  }

  ghost predicate SampleOf(h: seq<Event>, x: Sample, n: int) {
    0 <= n < |h| && x.at == h[n].at && x.raw == h[n].raw && x.total == TotalAt(h, n)
  }

  predicate Precedes(m: int, n: int) {
    m < n
  }

  ghost predicate Ascending(r: seq<int>) {
    forall k, l {:trigger Precedes(r[k], r[l])} :: 0 <= k < l < |r| ==> Precedes(r[k], r[l])
  }

  /** The samples are events with their true totals, in order, the newest event last. */
  ghost predicate Genuine(h: seq<Event>, s: seq<Sample>, r: seq<int>) {
    && |s| == |r| && (s == [] <==> h == []) && Ascending(r)
    && (forall k {:trigger SampleOf(h, s[k], r[k])} :: 0 <= k < |r| ==> SampleOf(h, s[k], r[k]))
    && (r != [] ==> r[|r| - 1] == |h| - 1)
  }

  /** Samples two or more apart are at least the spacing apart. */
  ghost predicate Spaced(s: seq<Sample>) {
    forall i, j {:trigger Apart(s[i].at, s[j].at)} :: 0 <= i && i + 2 <= j < |s| ==> Apart(s[i].at, s[j].at)
  }

  /** Events strictly between `lo` and `hi` came less than the spacing after `t`. */
  ghost predicate AllSoon(h: seq<Event>, lo: int, hi: int, t: int) {
    forall j :: lo < j < hi && 0 <= j < |h| ==> h[j].at - t < DROP_SPACING
  }

  /** Events overwritten after a sample came less than the spacing after it. */
  ghost predicate Thinned(h: seq<Event>, s: seq<Sample>, r: seq<int>)
    requires |s| == |r|
  {
    forall k, l {:trigger AllSoon(h, r[k], r[l], s[k].at)} ::
      0 <= k < l < |r| && l == k + 1 ==> AllSoon(h, r[k], r[l], s[k].at)
  }

  /** All but the first sample lie within `keep` of the last event; what precedes the first is out of reach. */
  ghost predicate Reaches(s: seq<Sample>, r: seq<int>, cutoff: int)
    requires s != [] && r != []
  {
    && (forall k :: 1 <= k < |s| ==> s[k].at >= cutoff)
    && (r[0] == 0 || s[0].at < cutoff)
  }

  ghost predicate Invariant(h: seq<Event>, s: seq<Sample>, r: seq<int>) {
    Genuine(h, s, r) && Spaced(s) && Thinned(h, s, r)
  }

  lemma NextSampleTotal(h: seq<Event>, s: seq<Sample>, r: seq<int>, e: Event)
    requires Genuine(h, s, r)
    ensures SampleOf(h + [e], NextSample(s, e.at, e.raw), |h|)
  {
    if h != [] {
      assert SampleOf(h, s[|s| - 1], r[|r| - 1]);
      TotalAtPrefix(h, e, |h| - 1);
    }
  }

  lemma SampleOfPrefix(h: seq<Event>, x: Sample, n: int, e: Event)
    requires SampleOf(h, x, n)
    ensures SampleOf(h + [e], x, n)
  {
    TotalAtPrefix(h, e, n);
  }

  ghost predicate Timely(s: seq<Sample>) {
    forall i, j {:trigger NotAfter(s[i].at, s[j].at)} :: 0 <= i <= j < |s| ==> NotAfter(s[i].at, s[j].at)
  }

  lemma SpacedAppend(s: seq<Sample>, x: Sample)
    requires Spaced(s) && Timely(s) && !Overwrites(s, x.at)
    ensures Spaced(s + [x])
  {
    forall i, j | 0 <= i && i + 2 <= j < |s| + 1 ensures Apart((s + [x])[i].at, (s + [x])[j].at) {
      if j == |s| { assert NotAfter(s[i].at, s[|s| - 2].at); } else { assert Apart(s[i].at, s[j].at); }
    }
  }

  lemma ThinnedAppend(h: seq<Event>, s: seq<Sample>, r: seq<int>, e: Event, x: Sample)
    requires Genuine(h, s, r) && Thinned(h, s, r)
    ensures Thinned(h + [e], s + [x], r + [|h|])
  {
    var r' := r + [|h|];
    forall k, l | 0 <= k < l < |r'| && l == k + 1 ensures AllSoon(h + [e], r'[k], r'[l], (s + [x])[k].at) {
      if l < |r| {
        assert SampleOf(h, s[l], r[l]) && AllSoon(h, r[k], r[l], s[k].at);
        AllSoonPrefix(h, e, r[k], r[l], s[k].at);
      }
    }
  }

  lemma AllSoonPrefix(h: seq<Event>, e: Event, lo: int, hi: int, t: int)
    requires AllSoon(h, lo, hi, t) && hi <= |h|
    ensures AllSoon(h + [e], lo, hi, t)
  {
  }

  lemma InOrderPrefix(h: seq<Event>, e: Event)
    requires InOrder(h + [e])
    ensures InOrder(h)
  {
    forall i, j | 0 <= i <= j < |h| ensures NotAfter(h[i].at, h[j].at) {
      assert NotAfter((h + [e])[i].at, (h + [e])[j].at);
    }
  }

  lemma AscendingAppend(r: seq<int>, n: int)
    requires Ascending(r) && (r != [] ==> r[|r| - 1] < n)
    ensures Ascending(r + [n])
  {
    forall k, l | 0 <= k < l < |r| + 1 ensures Precedes((r + [n])[k], (r + [n])[l]) {
      if l < |r| { assert Precedes(r[k], r[l]); }
      else if k < |r| - 1 { assert Precedes(r[k], r[|r| - 1]); }
    }
  }

  lemma Appended(h: seq<Event>, s: seq<Sample>, r: seq<int>, e: Event, x: Sample)
    requires InOrder(h + [e]) && Invariant(h, s, r) && x == NextSample(s, e.at, e.raw) && !Overwrites(s, e.at)
    ensures Invariant(h + [e], s + [x], r + [|h|])
  {
    NextSampleTotal(h, s, r, e);
    forall k | 0 <= k < |r| ensures SampleOf(h + [e], s[k], r[k]) { SampleOfPrefix(h, s[k], r[k], e); }
    InOrderPrefix(h, e);
    SamplesInOrder(h, s, r);
    SpacedAppend(s, x);
    AscendingAppend(r, |h|);
    ThinnedAppend(h, s, r, e, x);
  }

  lemma Overwritten(h: seq<Event>, s: seq<Sample>, r: seq<int>, e: Event, x: Sample)
    requires InOrder(h + [e]) && Invariant(h, s, r) && x == NextSample(s, e.at, e.raw) && Overwrites(s, e.at)
    ensures Invariant(h + [e], s[..|s| - 1] + [x], r[..|r| - 1] + [|h|])
  {
    NextSampleTotal(h, s, r, e);
    var n := |s| - 1;
    var s', r' := s[..n] + [x], r[..n] + [|h|];
    forall k | 0 <= k < n ensures SampleOf(h + [e], s'[k], r'[k]) { SampleOfPrefix(h, s[k], r[k], e); }
    assert SampleOf(h, s[n], r[n]);
    assert NotAfter((h + [e])[|h| - 1].at, (h + [e])[|h|].at);
    forall i, j | 0 <= i && i + 2 <= j < |s'| ensures Apart(s'[i].at, s'[j].at) {
      assert Apart(s[i].at, s[j].at);
    }
    forall k, l | 0 <= k < l < |r'| ensures Precedes(r'[k], r'[l]) { assert Precedes(r[k], r[l]); }
    forall k, l | 0 <= k < l < |r'| && l == k + 1 ensures AllSoon(h + [e], r'[k], r'[l], s'[k].at) {
      if l < n {
        assert AllSoon(h, r[k], r[l], s[k].at);
      } else {
        AllBefore(h + [e], r'[k], |h|, s'[k].at);
      }
    }
  }

  lemma AllBefore(h: seq<Event>, lo: int, hi: nat, t: int)
    requires InOrder(h) && hi < |h| && h[hi].at - t < DROP_SPACING
    ensures AllSoon(h, lo, hi, t)
  {
    forall j | lo < j < hi && 0 <= j < |h| ensures h[j].at - t < DROP_SPACING {
      assert NotAfter(h[j].at, h[hi].at);
    }
  }

  lemma Trimmed(h: seq<Event>, s: seq<Sample>, r: seq<int>, i: nat)
    requires Invariant(h, s, r) && i < |s|
    ensures Invariant(h, s[i..], r[i..])
  {
    forall k | 0 <= k < |s| - i ensures SampleOf(h, s[i..][k], r[i..][k]) { assert SampleOf(h, s[i + k], r[i + k]); }
    forall k, l | 0 <= k < l < |s| - i && l == k + 1 ensures AllSoon(h, r[i..][k], r[i..][l], s[i..][k].at) {
      assert AllSoon(h, r[i + k], r[i + l], s[i + k].at);
    }
    forall k, l | 0 <= k < l < |r| - i ensures Precedes(r[i..][k], r[i..][l]) { assert Precedes(r[i + k], r[i + l]); }
    forall k, l | 0 <= k && k + 2 <= l < |s| - i ensures Apart(s[i..][k].at, s[i..][l].at) {
      assert Apart(s[i + k].at, s[i + l].at);
    }
  }

  lemma StoredInvariant(h: seq<Event>, s: seq<Sample>, r: seq<int>, e: Event, x: Sample)
    requires InOrder(h + [e]) && Invariant(h, s, r) && x == NextSample(s, e.at, e.raw)
    ensures Invariant(h + [e], Stored(s, x), StoredSources(s, r, e.at, |h|))
  {
    if Overwrites(s, e.at) { Overwritten(h, s, r, e, x); } else { Appended(h, s, r, e, x); }
  }

  lemma NotedInvariant(h: seq<Event>, s: seq<Sample>, r: seq<int>, e: Event, keep: nat)
    requires InOrder(h + [e]) && Invariant(h, s, r)
    ensures Invariant(h + [e], Noted(s, e, keep), NotedSources(s, r, e, |h|, keep))
  {
    var x := NextSample(s, e.at, e.raw);
    StoredInvariant(h, s, r, e, x);
    var s', r' := Stored(s, x), StoredSources(s, r, e.at, |h|);
    var i := Stale(s', 0, e.at - keep);
    Trimmed(h + [e], s', r', i);
    assert Noted(s, e, keep) == s'[i..] && NotedSources(s, r, e, |h|, keep) == r'[i..];
  }

  lemma NotedReaches(s: seq<Sample>, r: seq<int>, e: Event, n: nat, keep: nat, before: int)
    requires |s| == |r| && (r == [] ==> n == 0)
    requires Timely(s) && (s != [] ==> s[|s| - 1].at <= e.at)
    requires before <= e.at && (s != [] ==> Reaches(s, r, before - keep))
    ensures var s' := Noted(s, e, keep);
            s' != [] && Reaches(s', NotedSources(s, r, e, n, keep), e.at - keep)
  {
    var stored := Stored(s, NextSample(s, e.at, e.raw));
    var i := Stale(stored, 0, e.at - keep);
    forall k, l | 0 <= k <= l < |stored| ensures NotAfter(stored[k].at, stored[l].at) {
      if l < |s| { assert NotAfter(s[k].at, s[l].at); }
      if k < |s| { assert NotAfter(s[k].at, s[|s| - 1].at); }
    }
    forall k | 1 <= k < |stored| - i ensures stored[i..][k].at >= e.at - keep {
      assert NotAfter(stored[i + 1].at, stored[i + k].at);
    }
  }

  lemma {:induction false} RunInvariant(h: seq<Event>, keep: nat)
    requires InOrder(h)
    ensures Invariant(h, Run(h, keep), Sources(h, keep))
    ensures h != [] ==> Reaches(Run(h, keep), Sources(h, keep), h[|h| - 1].at - keep)
  {
    if h != [] {
      var front, e := h[..|h| - 1], h[|h| - 1];
      assert front + [e] == h;
      InOrderPrefix(front, e);
      RunInvariant(front, keep);
      var s, r := Run(front, keep), Sources(front, keep);
      NotedInvariant(front, s, r, e, keep);
      SamplesInOrder(front, s, r);
      if front != [] { assert NotAfter(h[|h| - 2].at, h[|h| - 1].at); }
      NewestIsPast(front, s, r, e);
      NotedReaches(s, r, e, |front|, keep, if front == [] then e.at else front[|front| - 1].at);
    }
  }

  lemma NewestIsPast(h: seq<Event>, s: seq<Sample>, r: seq<int>, e: Event)
    requires InOrder(h) && Genuine(h, s, r) && (h != [] ==> h[|h| - 1].at <= e.at)
    ensures s != [] ==> s[|s| - 1].at <= e.at
  {
    if s != [] {
      var k := r[|r| - 1];
      assert SampleOf(h, s[|s| - 1], k);
      assert NotAfter(h[k].at, h[|h| - 1].at);
    }
  }

  lemma SamplesInOrder(h: seq<Event>, s: seq<Sample>, r: seq<int>)
    requires InOrder(h) && Genuine(h, s, r)
    ensures Timely(s) && forall k, l :: 0 <= k <= l < |s| ==> s[k].total <= s[l].total
  {
    forall k, l | 0 <= k <= l < |s| ensures NotAfter(s[k].at, s[l].at) && s[k].total <= s[l].total {
      assert SampleOf(h, s[k], r[k]) && SampleOf(h, s[l], r[l]);
      assert k < l ==> Precedes(r[k], r[l]);
      assert NotAfter(h[r[k]].at, h[r[l]].at);
      TotalGrows(h, r[k], r[l]);
    }
  }

  /** The newest sample is the last event, with the restart-aware total of all events. */
  lemma NewestTotal(h: seq<Event>, keep: nat)
    requires InOrder(h) && h != []
    ensures var s := Run(h, keep);
            s != [] && s[|s| - 1] == Sample(h[|h| - 1].at, h[|h| - 1].raw, Total(h))
  {
    RunInvariant(h, keep);
    var s, r := Run(h, keep), Sources(h, keep);
    assert SampleOf(h, s[|s| - 1], r[|r| - 1]);
  }

  lemma {:induction false} SpacedSpan(s: seq<Sample>, from: nat, m: nat)
    requires Spaced(s) && from + 2 * m < |s|
    ensures s[from + 2 * m].at - s[from].at >= m * DROP_SPACING
    decreases m
  {
    if m > 0 {
      SpacedSpan(s, from, m - 1);
      var k := from + 2 * (m - 1);
      var l := k + 2;
      assert Apart(s[k].at, s[l].at);
    }
  }

  lemma LengthBound(s: seq<Sample>, keep: nat)
    requires Spaced(s) && forall k :: 1 <= k < |s| ==> s[|s| - 1].at - s[k].at <= keep
    requires Timely(s)
    ensures |s| <= 2 * (keep / DROP_SPACING) + 3
  {
    if |s| > 3 {
      var m := (|s| - 2) / 2;
      SpacedSpan(s, 1, m);
      assert NotAfter(s[1 + 2 * m].at, s[|s| - 1].at);
      assert m * DROP_SPACING <= keep;
    }
  }

  /** In every reachable state the samples are ordered and spaced, and their number is bounded. */
  lemma Bounded(h: seq<Event>, keep: nat)
    requires InOrder(h)
    ensures var s := Run(h, keep);
            && |s| <= 2 * (keep / DROP_SPACING) + 3
            && Spaced(s) && Timely(s)
            && (forall i, j :: 0 <= i <= j < |s| ==> s[i].total <= s[j].total)
            && (forall k :: 1 <= k < |s| ==> s[|s| - 1].at - s[k].at <= keep)
  {
    RunInvariant(h, keep);
    var s := Run(h, keep);
    SamplesInOrder(h, s, Sources(h, keep));
    if h != [] { NewestTotal(h, keep); }
    LengthBound(s, keep);
  }

  // ----- the question asked of it -----

  /** The last sample at or before `from`, scanning on from sample `i`. */
  function LastBefore(s: seq<Sample>, i: nat, from: int): (r: nat)
    requires i < |s|
    ensures i <= r < |s|
    ensures r > i ==> s[r].at <= from
    ensures r + 1 < |s| ==> s[r + 1].at > from
    decreases |s| - i
  {
    if i + 1 < |s| && s[i + 1].at <= from then LastBefore(s, i + 1, from) else i
  }

  /** The sample the window is measured from: the last at or before `from`, else the first. */
  function Base(s: seq<Sample>, from: int): (i: nat)
    requires s != []
    ensures i < |s|
  {
    if s[0].at > from then 0 else LastBefore(s, 0, from)
  }

  lemma BaseSource(h: seq<Event>, s: seq<Sample>, r: seq<int>, from: int)
    requires Genuine(h, s, r) && h != [] && h[0].at <= from && InOrder(h)
    requires r[0] == 0 || s[0].at <= from
    ensures 0 <= r[Base(s, from)] < |h| && h[r[Base(s, from)]].at <= from && s[Base(s, from)].at <= from
    ensures Base(s, from) + 1 < |s| ==> 0 <= r[Base(s, from) + 1] < |h| && h[r[Base(s, from) + 1]].at > from
  {
    var i := Base(s, from);
    assert SampleOf(h, s[0], r[0]) && SampleOf(h, s[i], r[i]);
    if i + 1 < |s| { assert SampleOf(h, s[i + 1], r[i + 1]); }
  }

  /** The base is the last event at or before the window's start, or less than the spacing before it. */
  lemma BaseIsClose(h: seq<Event>, s: seq<Sample>, r: seq<int>, from: int)
    requires InOrder(h) && Invariant(h, s, r) && h != [] && h[0].at <= from
    requires r[0] == 0 || s[0].at <= from
    ensures var b, j := r[Base(s, from)], LatestAt(h, from);
            0 <= b <= j && (b == j || h[j].at - h[b].at < DROP_SPACING)
  {
    BaseSource(h, s, r, from);
    var i := Base(s, from);
    var b, j := r[i], LatestAt(h, from);
    assert SampleOf(h, s[i], r[i]);
    if i + 1 < |s| {
      var l := i + 1;
      assert AllSoon(h, r[i], r[l], s[i].at);
      LatestIsLast(h, from, r[l]);
    }
  }

  lemma LatestIsLast(h: seq<Event>, from: int, k: nat)
    requires InOrder(h) && h != [] && h[0].at <= from && k < |h| && h[k].at > from
    ensures LatestAt(h, from) < k
  {
    var j := LatestAt(h, from);
    assert k <= j ==> NotAfter(h[k].at, h[j].at);
  }

  /** What the drops counted after event `b` have to do with the window that starts at `from`. */
  ghost predicate Measures(h: seq<Event>, from: int, b: nat) {
    && b < |h|
    && (h[0].at > from ==> b == 0)
    && (h[0].at <= from ==>
          var j := LatestAt(h, from);
          && b <= j && (b == j || h[j].at - h[b].at < DROP_SPACING)
          && TotalAt(h, b) <= TotalAt(h, j))
  }

  /** Everything the object relies on: genuine, spaced, thinned samples that reach back `keep`. */
  ghost predicate Represents(h: seq<Event>, s: seq<Sample>, r: seq<int>, keep: nat) {
    InOrder(h) && Invariant(h, s, r) && (h != [] ==> Reaches(s, r, h[|h| - 1].at - keep))
  }

  /**
   For a window no longer than what is kept, the answer counts the drops after an event `b`. If tracking
   does not reach back to the window's start, that is the first event. Otherwise it is the true last
   event `j` at or before the start, or lies less than the spacing before `j`; so drops are never
   under-counted.
  */
  lemma WithinExact(h: seq<Event>, s: seq<Sample>, r: seq<int>, keep: nat, window: nat, now: int) returns (b: nat)
    requires Represents(h, s, r, keep) && h != [] && h[|h| - 1].at <= now && window <= keep
    ensures Measures(h, now - window, b)
    ensures s[|s| - 1].total - s[Base(s, now - window)].total == Total(h) - TotalAt(h, b) >= 0
  {
    var i, n := Base(s, now - window), |s| - 1;
    assert SampleOf(h, s[0], r[0]) && SampleOf(h, s[i], r[i]) && SampleOf(h, s[n], r[n]);
    b := r[i];
    assert NotAfter(h[0].at, h[r[0]].at);
    TotalGrows(h, b, |h| - 1);
    if h[0].at <= now - window {
      BaseIsClose(h, s, r, now - window);
      TotalGrows(h, b, LatestAt(h, now - window));
    }
  }

  /** The samples after any ordered history answer every window up to `keep` that way. */
  lemma RunRepresents(h: seq<Event>, keep: nat)
    requires InOrder(h)
    ensures Represents(h, Run(h, keep), Sources(h, keep), keep)
  {
    RunInvariant(h, keep);
  }

  // ----- the object -----

  /** Hardware drops plus buffer failures of one capture device. */
  datatype Capturer = Capturer(droppedHw: nat, mbufFailed: nat)

  function DropsOf(cs: seq<Capturer>): nat {
    if cs == [] then 0 else DropsOf(cs[..|cs| - 1]) + cs[|cs| - 1].droppedHw + cs[|cs| - 1].mbufFailed
  }

  method Drops(cs: seq<Capturer>) returns (n: nat)
    ensures n == DropsOf(cs)
  {
    n := 0;
    for i := 0 to |cs|
      invariant n == DropsOf(cs[..i])
    {
      assert cs[..i + 1][..i] == cs[..i];
      n := n + cs[i].droppedHw + cs[i].mbufFailed;
    }
    assert cs[..|cs|] == cs;
  }

  lemma InOrderAppend(h: seq<Event>, e: Event)
    requires InOrder(h) && (h != [] ==> h[|h| - 1].at <= e.at)
    ensures InOrder(h + [e])
  {
    forall i, j | 0 <= i <= j < |h| + 1 ensures NotAfter((h + [e])[i].at, (h + [e])[j].at) {
      if j < |h| { assert NotAfter(h[i].at, h[j].at); }
      else if i < |h| { assert NotAfter(h[i].at, h[|h| - 1].at); }
    }
  }

  lemma NotedRepresents(h: seq<Event>, s: seq<Sample>, r: seq<int>, e: Event, keep: nat)
    requires Represents(h, s, r, keep) && (h != [] ==> h[|h| - 1].at <= e.at)
    ensures Represents(h + [e], Noted(s, e, keep), NotedSources(s, r, e, |h|, keep), keep)
  {
    InOrderAppend(h, e);
    NotedInvariant(h, s, r, e, keep);
    SamplesInOrder(h, s, r);
    NewestIsPast(h, s, r, e);
    NotedReaches(s, r, e, |h|, keep, if h == [] then e.at else h[|h| - 1].at);
  }

  class History {
    const keep: nat
    var samples: seq<Sample>
    /** Every event noted so far, and the events the samples come from. */
    ghost var events: seq<Event>
    ghost var sources: seq<int>

    ghost predicate Valid()
      reads this
    {
      Represents(events, samples, sources, keep)
    }

    constructor (keep: nat)
      ensures Valid() && events == [] && samples == [] && this.keep == keep
    {
      this.keep := keep;
      samples, events, sources := [], [], [];
    }

    method Note(now: int, cs: seq<Capturer>)
      requires Valid()
      requires events != [] ==> events[|events| - 1].at <= now
      modifies this
      ensures Valid() && events == old(events) + [Event(now, DropsOf(cs))]
      ensures samples == Noted(old(samples), Event(now, DropsOf(cs)), keep)
    {
      var cur := Drops(cs);
      ghost var e := Event(now, cur);
      NotedRepresents(events, samples, sources, e, keep);
      sources := NotedSources(samples, sources, e, |events|, keep);
      samples := Store(samples, now, cur);
      events := events + [e];
    }

    /** Adds a sample, or overwrites the newest, and drops what lies before the cutoff. */
    method Store(before: seq<Sample>, now: int, cur: nat) returns (after: seq<Sample>)
      ensures after == Noted(before, Event(now, cur), keep)
    {
      after := AddSample(before, now, cur);
      after := DropStale(after, now - keep);
    }

    method AddSample(before: seq<Sample>, now: int, cur: nat) returns (after: seq<Sample>)
      ensures after == Stored(before, NextSample(before, now, cur))
    {
      var sample := Sample(now, cur, 0);
      if |before| > 0 {
        var last := before[|before| - 1];
        sample := Sample(now, cur, if cur >= last.raw then last.total + (cur - last.raw) else last.total + cur);
      }
      after := before;
      if |after| > 1 && now - after[|after| - 2].at < DROP_SPACING {
        after := after[..|after| - 1] + [sample];
      } else {
        after := after + [sample];
      }
    }

    method DropStale(samples: seq<Sample>, cutoff: int) returns (kept: seq<Sample>)
      requires samples != []
      ensures kept == Fresh(samples, cutoff)
    {
      var i := 0;
      while i < |samples| - 1 && samples[i + 1].at < cutoff
        invariant 0 <= i < |samples|
        invariant Stale(samples, 0, cutoff) == Stale(samples, i, cutoff)
      {
        i := i + 1;
      }
      kept := samples[i..];
    }

    /** The drops since an event `b` that measures the window. */
    method Within(now: int, window: nat) returns (n: int, ok: bool, ghost b: nat)
      requires Valid() && window <= keep
      requires events != [] ==> events[|events| - 1].at <= now
      ensures ok <==> events != []
      ensures ok ==> Measures(events, now - window, b) && n == Total(events) - TotalAt(events, b) >= 0
    {
      if |samples| == 0 { return 0, false, 0; }
      var last := samples[|samples| - 1];
      var from := now - window;
      var base := samples[0];
      var i := 0;
      while i < |samples| && samples[i].at <= from
        invariant 0 <= i <= |samples|
        invariant base == samples[if i == 0 then 0 else i - 1]
        invariant i > 0 ==> samples[0].at <= from && Base(samples, from) == LastBefore(samples, i - 1, from)
      {
        base := samples[i];
        i := i + 1;
      }
      assert base == samples[Base(samples, from)];
      b := WithinExact(events, samples, sources, keep, window, now);
      n, ok := last.total - base.total, true;
    }
  }
}

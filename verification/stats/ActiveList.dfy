/** The active-stream list: sort, then filter in three stages, count, and cut out one page. */
module ActiveList {
  import opened Lists
  import opened Results
  import opened FilterEvaluate
  import opened FilterLexer
  import P = FilterParser
  import opened FilterTransport
  import opened SortOrder
  import opened Texts

  /** Go panics when asked for a slice of negative length. */
  datatype PageError = NegativeLength

  // ----- one stage of filtering -----

  datatype Stage =
    | Window(lo: real, hi: real)
    | CallId(id: string)
    | Expression(node: P.Node)
    | Unparsable

  /** A value as a number, 0 for whatever is none. */
  function NumOf(rec: Record, column: string, h: Host): real {
    if column !in rec then 0.0
    else
      match rec[column]
      case Str(s) => (match h.float(s) case Some(x) => x case None => 0.0)
      case v => ToFloat(v, h)
  }

  /** Numbers are themselves, texts are parsed, and what is missing or no number counts as 0. */
  lemma NumberOfColumn(rec: Record, column: string, h: Host)
    ensures column in rec && rec[column].Int? ==> NumOf(rec, column, h) == h.round(rec[column].i as real)
    ensures column in rec && rec[column].Real? ==> NumOf(rec, column, h) == rec[column].r
    ensures column in rec && rec[column].Str? ==>
              NumOf(rec, column, h) == match h.float(rec[column].s) case Some(x) => x case None => 0.0
    ensures column !in rec ==> NumOf(rec, column, h) == 0.0
  {
  }

  predicate Admits(h: Host, stage: Stage, r: Record) {
    match stage
    case Window(lo, hi) => lo <= NumOf(r, "start_time", h) <= hi
    case CallId(id) => "sip_callid" in r && r["sip_callid"] == Str(id)
    case Expression(node) => Keeps(node, r, h)
    case Unparsable => false
  }

  function WindowStages(h: Host, q: Search): seq<Stage> {
    match q.interval
    case Some(w) => [Window(h.round(w.start as real), h.round(w.end as real))]
    case None => []
  }

  function CallIdStages(q: Search): seq<Stage> {
    if q.callId == "" then [] else [CallId(q.callId)]
  }

  function ExpressionStages(h: Host, q: Search): seq<Stage> {
    if q.expression == "" then []
    else
      match P.Parse(q.expression, h.float)
      case Ok(node) => [Expression(node)]
      case Err(_) => [Unparsable]
  }

  function Stages(h: Host, q: Search): seq<Stage> {
    WindowStages(h, q) + CallIdStages(q) + ExpressionStages(h, q)
  }

  /** r passes every stage. */
  predicate Passes(h: Host, stages: seq<Stage>, r: Record) {
    forall i :: 0 <= i < |stages| ==> Admits(h, stages[i], r)
  }

  function Kept(h: Host, stages: seq<Stage>, s: seq<Record>): seq<Record> {
    if s == [] then []
    else Kept(h, stages, s[..|s| - 1]) + if Passes(h, stages, s[|s| - 1]) then [s[|s| - 1]] else []
  }

  lemma KeptAppend(h: Host, stages: seq<Stage>, s: seq<Record>, x: Record)
    ensures Kept(h, stages, s + [x]) == Kept(h, stages, s) + if Passes(h, stages, x) then [x] else []
  {
    assert (s + [x])[..|s|] == s;
  }

  lemma PassesBoth(h: Host, a: seq<Stage>, b: seq<Stage>, r: Record)
    ensures Passes(h, a + b, r) <==> Passes(h, a, r) && Passes(h, b, r)
  {
    if Passes(h, a + b, r) {
      forall i | 0 <= i < |a| ensures Admits(h, a[i], r) { assert (a + b)[i] == a[i]; }
      forall i | 0 <= i < |b| ensures Admits(h, b[i], r) { assert (a + b)[|a| + i] == b[i]; }
    }
  }

  /** Filtering stage after stage is filtering by all stages at once. */
  lemma {:induction false} StagesCompose(h: Host, a: seq<Stage>, b: seq<Stage>, s: seq<Record>)
    ensures Kept(h, b, Kept(h, a, s)) == Kept(h, a + b, s)
  {
    if s != [] {
      var front, x := s[..|s| - 1], s[|s| - 1];
      StagesCompose(h, a, b, front);
      PassesBoth(h, a, b, x);
      var kept := Kept(h, a, front);
      KeptAppend(h, b, kept, x);
      assert kept + [] == kept;
    }
  }

  lemma {:induction false} KeptByNothing(h: Host, stages: seq<Stage>, s: seq<Record>)
    requires stages == []
    ensures Kept(h, stages, s) == s
  {
    if s != [] { KeptByNothing(h, stages, s[..|s| - 1]); }
  }

  // ----- filtering and sorting -----

  lemma {:induction false} KeptMembers(h: Host, stages: seq<Stage>, s: seq<Record>)
    ensures forall y :: y in Kept(h, stages, s) ==> y in s
  {
    if s != [] { KeptMembers(h, stages, s[..|s| - 1]); }
  }

  lemma {:induction false} KeptSorted(h: Host, stages: seq<Stage>, o: Order, s: seq<Record>)
    requires Sorted(o, s)
    ensures Sorted(o, Kept(h, stages, s))
  {
    if s != [] {
      var front, x := s[..|s| - 1], s[|s| - 1];
      SortedFront(o, s);
      KeptSorted(h, stages, o, front);
      if Passes(h, stages, x) {
        KeptMembers(h, stages, front);
        forall y | y in Kept(h, stages, front) ensures InOrder(o, y, x) {
          var i :| 0 <= i < |front| && front[i] == y;
          assert InOrder(o, s[i], s[|s| - 1]);
        }
        SortedAppend(o, Kept(h, stages, front), x);
      }
    }
  }

  lemma {:induction false} KeptClass(h: Host, stages: seq<Stage>, o: Order, k: Record, s: seq<Record>)
    ensures Class(o, k, Kept(h, stages, s)) == Kept(h, stages, Class(o, k, s))
  {
    if s != [] {
      var front, x := s[..|s| - 1], s[|s| - 1];
      KeptClass(h, stages, o, k, front);
      var kept, ties := Kept(h, stages, front), Class(o, k, front);
      ClassAppend(o, k, kept, x);
      KeptAppend(h, stages, ties, x);
      assert kept + [] == kept && ties + [] == ties;
    }
  }

  /** Filtering what has been sorted is sorting what has been filtered. */
  lemma FilterCommutesWithSort(h: Host, stages: seq<Stage>, o: Order, s: seq<Record>)
    ensures Kept(h, stages, StableSort(o, s)) == StableSort(o, Kept(h, stages, s))
  {
    var t := StableSort(o, s);
    StableSortSorts(o, s);
    KeptSorted(h, stages, o, t);
    forall k ensures Class(o, k, Kept(h, stages, t)) == Class(o, k, Kept(h, stages, s)) {
      KeptClass(h, stages, o, k, t);
      KeptClass(h, stages, o, k, s);
    }
    StableSortUnique(o, Kept(h, stages, s), Kept(h, stages, t));
  }

  // ----- paging -----

  /** The page of count items from offset; the end is computed in 64 bits. */
  function Page(s: seq<Record>, offset: int, count: int): Result<seq<Record>, PageError> {
    var start := if offset < 0 then 0 else offset;
    if count <= 0 || start >= |s| then Ok([])
    else
      var end := Wrap64(start + count);
      if end > |s| then Ok(s[start..]) else if end < start then Err(NegativeLength) else Ok(s[start..end])
  }

  lemma WrapIsIdentity(n: int)
    ensures IsInt64(n) ==> Wrap64(n) == n
    ensures MAX_INT64 < n <= 2 * MAX_INT64 ==> Wrap64(n) < 0
  {
  }

  function Lower(a: int, b: int): int {
    if a < b then a else b
  }

  /** A page is a slice of the list, and fails exactly when it is to end past what 64 bits hold. */
  lemma PageExact(s: seq<Record>, offset: int, count: int)
    requires IsInt64(offset) && IsInt64(count) && |s| <= MAX_INT64
    ensures var start := if offset < 0 then 0 else offset;
            && (Page(s, offset, count).Err? <==> count > 0 && start < |s| && start + count > MAX_INT64)
            && (Page(s, offset, count).Ok? && count > 0 ==>
                  Page(s, offset, count).value == s[Lower(start, |s|)..Lower(start + count, |s|)])
    ensures count <= 0 ==> Page(s, offset, count) == Ok([])
  {
    var start := if offset < 0 then 0 else offset;
    if count > 0 && start < |s| { WrapIsIdentity(start + count); }
  }

  /** The pages of size m from offset on, joined. */
  function Joined(s: seq<Record>, offset: int, m: int, pages: nat): Result<seq<Record>, PageError>
    decreases pages
  {
    if pages == 0 then Ok([])
    else
      var first :- Page(s, offset, m);
      var rest :- Joined(s, offset + m, m, pages - 1);
      Ok(first + rest)
  }

  /** Consecutive pages tile the list. */
  lemma {:induction false} PagesTile(s: seq<Record>, offset: nat, m: int, pages: nat, end: int)
    requires 0 < m && |s| <= MAX_INT64 && end == offset + m * pages <= MAX_INT64
    ensures offset <= end
    ensures Joined(s, offset, m, pages) == Ok(s[Lower(offset, |s|)..Lower(end, |s|)])
    decreases pages
  {
    if pages == 0 {
      assert m * pages == 0;
      assert s[Lower(offset, |s|)..Lower(end, |s|)] == [];
    } else {
      assert m * pages == m * (pages - 1) + m && m * (pages - 1) >= 0;
      PageExact(s, offset, m);
      PagesTile(s, offset + m, m, pages - 1, end);
      Adjoining(s, Lower(offset, |s|), Lower(offset + m, |s|), Lower(end, |s|));
    }
  }

  lemma Adjoining(s: seq<Record>, a: nat, b: nat, c: nat)
    requires a <= b <= c <= |s|
    ensures s[a..b] + s[b..c] == s[a..c]
  {
  }

  // ----- the whole pipeline -----

  function OrderOf(h: Host, q: Search): Order {
    Order(h, SortColumn(q.sortField), q.descending)
  }

  /** Everything a request selects, in order, whatever page it wants. */
  function Selected(h: Host, records: seq<Record>, q: Search): seq<Record> {
    Kept(h, Stages(h, q), StableSort(OrderOf(h, q), records))
  }

  /** What the request may ask for instead: the same list, sorted only after filtering. */
  lemma SelectedMeans(h: Host, records: seq<Record>, q: Search)
    ensures var wanted := Kept(h, Stages(h, q), records);
            && IsStableSort(OrderOf(h, q), wanted, Selected(h, records, q))
            && multiset(Selected(h, records, q)) == multiset(wanted)
            && |Selected(h, records, q)| == |wanted|
  {
    var wanted := Kept(h, Stages(h, q), records);
    FilterCommutesWithSort(h, Stages(h, q), OrderOf(h, q), records);
    StableSortSorts(OrderOf(h, q), wanted);
    assert |multiset(Selected(h, records, q))| == |multiset(wanted)|;
  }

  lemma {:induction false} KeptExactly(h: Host, stages: seq<Stage>, s: seq<Record>)
    ensures forall r :: r in Kept(h, stages, s) <==> r in s && Passes(h, stages, r)
  {
    if s != [] {
      KeptExactly(h, stages, s[..|s| - 1]);
      LastOrFront(s);
    }
  }

  /** The record started within the requested interval, if there is one. */
  predicate InWindow(h: Host, q: Search, r: Record) {
    q.interval.Some? ==>
      h.round(q.interval.value.start as real) <= NumOf(r, "start_time", h) <= h.round(q.interval.value.end as real)
  }

  /** It is of the requested call, if there is one. */
  predicate OfCall(q: Search, r: Record) {
    q.callId != "" ==> "sip_callid" in r && r["sip_callid"] == Str(q.callId)
  }

  /** The filter expression parses and keeps it, if there is one. */
  predicate Filtered(h: Host, q: Search, r: Record) {
    q.expression != "" ==>
      P.Parse(q.expression, h.float).Ok? && Keeps(P.Parse(q.expression, h.float).value, r, h)
  }

  lemma StagesExactly(h: Host, q: Search, r: Record)
    ensures Passes(h, Stages(h, q), r) <==> InWindow(h, q, r) && OfCall(q, r) && Filtered(h, q, r)
  {
    var a, b, c := WindowStages(h, q), CallIdStages(q), ExpressionStages(h, q);
    PassesBoth(h, a + b, c, r);
    PassesBoth(h, a, b, r);
    if a != [] { assert Admits(h, a[0], r) <==> InWindow(h, q, r); }
    if b != [] { assert Admits(h, b[0], r) <==> OfCall(q, r); }
    if c != [] { assert Admits(h, c[0], r) <==> Filtered(h, q, r); }
  }

  /** A record is selected exactly when it is one of those given, in the window, of the call, and kept by the filter. */
  lemma SelectedExactly(h: Host, records: seq<Record>, q: Search, r: Record)
    ensures r in Selected(h, records, q) <==> r in records && InWindow(h, q, r) && OfCall(q, r) && Filtered(h, q, r)
  {
    var sorted := StableSort(OrderOf(h, q), records);
    StableSortSorts(OrderOf(h, q), records);
    KeptExactly(h, Stages(h, q), sorted);
    assert r in sorted <==> r in multiset(sorted);
    assert r in records <==> r in multiset(records);
    StagesExactly(h, q, r);
  }

  /** The pages of a request, joined, are everything it selects. */
  lemma PagesShowEverything(h: Host, records: seq<Record>, q: Search, m: int, pages: nat)
    requires 0 < m && |Selected(h, records, q)| <= m * pages <= MAX_INT64
    ensures Joined(Selected(h, records, q), 0, m, pages) == Ok(Selected(h, records, q))
  {
    var s := Selected(h, records, q);
    PagesTile(s, 0, m, pages, m * pages);
    assert s[..|s|] == s;
  }

  /** A record with its precomputed key. */
  datatype Decorated = Decorated(rec: Record, key: SortKey)

  function Records(s: seq<Decorated>): (r: seq<Record>)
    ensures |r| == |s| && forall i :: 0 <= i < |s| ==> r[i] == s[i].rec
  {
    seq(|s|, i requires 0 <= i < |s| => s[i].rec)
  }

  predicate KeysFit(o: Order, s: seq<Decorated>) {
    forall i :: 0 <= i < |s| ==> s[i].key == Key(o, s[i].rec)
  }

  /** The state while s[j] moves down through a sorted list: what is to come is known but for the insertion. */
  ghost predicate Moving(o: Order, s: seq<Record>, j: nat, goal: seq<Record>) {
    j < |s| && Insert(o, s[..j], s[j]) + s[j + 1..] == goal
  }

  lemma Moved(o: Order, s: seq<Record>, j: nat, goal: seq<Record>)
    requires 0 < j < |s| && Moving(o, s, j, goal) && Comes(o, s[j], s[j - 1])
    ensures Moving(o, s[j - 1 := s[j]][j := s[j - 1]], j - 1, goal)
  {
    var t, last := s[j - 1 := s[j]][j := s[j - 1]], s[j - 1];
    assert s[..j][..j - 1] == s[..j - 1] == t[..j - 1] && t[j..] == [last] + s[j + 1..];
    var moved := Insert(o, s[..j - 1], s[j]);
    assert (moved + [last]) + s[j + 1..] == moved + ([last] + s[j + 1..]);
  }

  lemma Settled(o: Order, s: seq<Record>, j: nat, goal: seq<Record>)
    requires Moving(o, s, j, goal) && (j == 0 || !Comes(o, s[j], s[j - 1]))
    ensures s == goal
  {
    assert j > 0 ==> s[..j][j - 1] == s[j - 1];
    assert s == s[..j] + [s[j]] + s[j + 1..];
  }

  /** Moves the record at i down past those it comes before. */
  method MoveDown(d: array<Decorated>, o: Order, i: nat)
    requires i < d.Length && KeysFit(o, d[..])
    modifies d
    ensures KeysFit(o, d[..])
    ensures Records(d[..]) == Insert(o, Records(old(d[..]))[..i], old(d[i]).rec) + Records(old(d[..]))[i + 1..]
  {
    var j := i;
    ghost var goal := Insert(o, Records(d[..])[..i], d[i].rec) + Records(d[..])[i + 1..];
    while j > 0 && KeyComes(o.descending, d[j].key, d[j - 1].key)
      invariant 0 <= j <= i && KeysFit(o, d[..]) && Moving(o, Records(d[..]), j, goal)
    {
      ghost var was := d[..];
      Moved(o, Records(was), j, goal);
      d[j - 1], d[j] := d[j], d[j - 1];
      assert d[..] == was[j - 1 := was[j]][j := was[j - 1]];
      assert Records(d[..]) == Records(was)[j - 1 := was[j].rec][j := was[j - 1].rec];
      j := j - 1;
    }
    Settled(o, Records(d[..]), j, goal);
  }

  /** The first i records are sorted, the others where they were. */
  ghost predicate SortedUpTo(o: Order, s: seq<Record>, input: seq<Record>, i: nat) {
    i <= |s| == |input| && s == StableSort(o, input[..i]) + input[i..]
  }

  lemma {:induction false} SortLength(o: Order, s: seq<Record>)
    ensures |StableSort(o, s)| == |s|
  {
    StableSortSorts(o, s);
    assert |multiset(StableSort(o, s))| == |multiset(s)|;
  }

  lemma SortedFurther(o: Order, s: seq<Record>, input: seq<Record>, i: nat)
    requires i < |s| && SortedUpTo(o, s, input, i)
    ensures SortedUpTo(o, Insert(o, s[..i], s[i]) + s[i + 1..], input, i + 1)
  {
    SortLength(o, input[..i]);
    SortLength(o, input[..i + 1]);
    assert input[..i + 1][..i] == input[..i];
    assert s[..i] == StableSort(o, input[..i]) && s[i] == input[i] && s[i + 1..] == input[i + 1..];
  }

  method SortDecorated(d: array<Decorated>, o: Order)
    requires KeysFit(o, d[..])
    modifies d
    ensures Records(d[..]) == StableSort(o, Records(old(d[..])))
  {
    ghost var input := Records(d[..]);
    assert StableSort(o, input[..0]) + input[0..] == input;
    for i := 0 to d.Length
      invariant KeysFit(o, d[..]) && SortedUpTo(o, Records(d[..]), input, i)
    {
      SortedFurther(o, Records(d[..]), input, i);
      MoveDown(d, o, i);
    }
    assert input[..d.Length] == input && input[d.Length..] == [];
  }

  /** The records of a list, each with its key. */
  method Decorate(items: array<Record>, o: Order) returns (decorated: array<Decorated>)
    ensures fresh(decorated) && KeysFit(o, decorated[..]) && Records(decorated[..]) == items[..]
  {
    decorated := new Decorated[items.Length](_ => Decorated(map[], SortKey(0, 0.0, "")));
    for i := 0 to items.Length
      invariant forall k :: 0 <= k < i ==> decorated[k] == Decorated(items[k], Key(o, items[k]))
    {
      decorated[i] := Decorated(items[i], MakeSortKey(items[i], o.column, o.h));
    }
  }

  method WriteBack(items: array<Record>, decorated: array<Decorated>)
    requires items.Length == decorated.Length
    modifies items
    ensures items[..] == Records(decorated[..])
  {
    for i := 0 to items.Length
      invariant items[..i] == Records(decorated[..])[..i]
    {
      items[i] := decorated[i].rec;
    }
  }

  method SortRecords(items: array<Record>, sortField: string, descending: bool, h: Host)
    modifies items
    ensures items[..] == StableSort(Order(h, SortColumn(sortField), descending), old(items[..]))
  {
    SortBy(items, Order(h, SortColumn(sortField), descending));
  }

  /** Sorts in place by keys computed once. */
  method SortBy(items: array<Record>, o: Order)
    modifies items
    ensures items[..] == StableSort(o, old(items[..]))
  {
    var decorated := Decorate(items, o);
    SortDecorated(decorated, o);
    SortLength(o, items[..]);
    WriteBack(items, decorated);
  }

  /** One filtering loop: the list of those a stage admits. */
  method FilterBy(stage: Stage, items: seq<Record>, h: Host) returns (filtered: seq<Record>)
    ensures filtered == Kept(h, [stage], items)
  {
    filtered := [];
    for i := 0 to |items|
      invariant filtered == Kept(h, [stage], items[..i])
    {
      assert items[..i + 1] == items[..i] + [items[i]];
      KeptAppend(h, [stage], items[..i], items[i]);
      assert Passes(h, [stage], items[i]) <==> Admits(h, stage, items[i]) by { assert [stage][0] == stage; }
      if Admits(h, stage, items[i]) { filtered := filtered + [items[i]]; }
    }
    assert items[..|items|] == items;
  }

  /** The filtering stages one after the other, each only when the request asks for it. */
  method FilterRecords(sorted: seq<Record>, q: Search, h: Host) returns (items: seq<Record>)
    ensures items == Kept(h, Stages(h, q), sorted)
  {
    items := sorted;
    KeptByNothing(h, [], sorted);
    if q.interval.Some? {
      var from, until := h.round(q.interval.value.start as real), h.round(q.interval.value.end as real);
      items := FilterBy(Window(from, until), items, h);
    }
    StagesCompose(h, WindowStages(h, q), CallIdStages(q), sorted);
    KeptByNothing(h, [], items);
    if q.callId != "" { items := FilterBy(CallId(q.callId), items, h); }
    StagesCompose(h, WindowStages(h, q) + CallIdStages(q), ExpressionStages(h, q), sorted);
    KeptByNothing(h, [], items);
    if q.expression != "" {
      var parsed := P.ParseText(q.expression, h.float);
      items := FilterBy(if parsed.Ok? then Expression(parsed.value) else Unparsable, items, h);
    }
  }

  method CopyOf(records: array<Record>) returns (items: array<Record>)
    ensures fresh(items) && items[..] == records[..]
  {
    items := new Record[records.Length](_ => map[]);
    for i := 0 to records.Length
      invariant forall k :: 0 <= k < i ==> items[k] == records[k]
    {
      items[i] := records[i];
    }
  }

  /** The page and the number of records selected; the given records stay as they are. */
  method PaginateActive(records: array<Record>, q: Search, h: Host)
    returns (page: Result<seq<Record>, PageError>, total: nat)
    ensures total == |Kept(h, Stages(h, q), records[..])|
    ensures page == Page(Selected(h, records[..], q), q.offset, q.count)
  {
    var copied := CopyOf(records);
    SortRecords(copied, q.sortField, q.descending, h);
    var items := FilterRecords(copied[..], q, h);
    SelectedMeans(h, records[..], q);
    total := |items|;
    page := CutPage(items, q.offset, q.count);
  }

  method CutPage(items: seq<Record>, offset: int, count: int) returns (page: Result<seq<Record>, PageError>)
    ensures page == Page(items, offset, count)
  {
    var start := offset;
    if start < 0 { start := 0; }
    if count <= 0 { return Ok([]); }
    if start >= |items| { return Ok([]); }
    var end := Wrap64(start + count);
    if end > |items| { end := |items|; }
    if end < start { return Err(NegativeLength); }
    assert items[start..] == items[start..|items|];
    return Ok(items[start..end]);
  }
}

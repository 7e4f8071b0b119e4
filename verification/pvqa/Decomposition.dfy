/** Counting detector triggers over interval reports, by detector name. */
module PvqaDecomposition {
  import opened FirstSeen
  import opened Lists

  /** One interval: whether it was poor, its cells, and which of them carried the trigger mark. */
  datatype Row = Row(poor: bool, values: seq<real>, marked: seq<bool>)

  /** One report: its detector columns and its intervals. */
  datatype Report = Report(detectors: seq<string>, rows: seq<Row>)

  datatype Detector = Detector(intThresh: real, flagged: bool)

  type Thresholds = map<string, Detector>

  datatype DetectorCount = DetectorCount(name: string, count: int)

  datatype Decomposition = Decomposition(detectors: seq<DetectorCount>, intervals: int, poorIntervals: int)

  predicate Triggered(row: Row, idx: nat, threshold: real, known: bool)
    requires idx < |row.values|
  {
    if idx < |row.marked| && row.marked[idx] then true
    else if known then row.values[idx] > threshold
    else row.poor && row.values[idx] > 0.001
  }

  /** An unflagged detector only feeds the MOS model. */
  predicate Counted(th: Thresholds, name: string) {
    name in th ==> th[name].flagged
  }

  function Limit(th: Thresholds, name: string): real {
    if name in th && th[name].flagged then th[name].intThresh else 0.0
  }

  // ----- the specification: sums over the cells under a name -----

  /** The cell at idx is a trigger of the named detector. */
  predicate Hit(th: Thresholds, columns: seq<string>, row: Row, name: string, idx: nat) {
    && idx < |row.values| && idx < |columns| && columns[idx] == name
    && Counted(th, name) && Triggered(row, idx, Limit(th, name), name in th)
  }

  function Hits(th: Thresholds, columns: seq<string>, row: Row, name: string): set<nat> {
    set idx: nat | idx < |row.values| && Hit(th, columns, row, name, idx)
  }

  function RowsTotal(th: Thresholds, columns: seq<string>, rows: seq<Row>, name: string): nat {
    if rows == [] then 0
    else RowsTotal(th, columns, rows[..|rows| - 1], name) + |Hits(th, columns, rows[|rows| - 1], name)|
  }

  function Total(th: Thresholds, reports: seq<Report>, name: string): nat {
    if reports == [] then 0
    else
      var last := reports[|reports| - 1];
      Total(th, reports[..|reports| - 1], name) + RowsTotal(th, last.detectors, last.rows, name)
  }

  function CountedOf(th: Thresholds, columns: seq<string>): seq<string> {
    if columns == [] then []
    else
      var last := columns[|columns| - 1];
      CountedOf(th, columns[..|columns| - 1]) + if Counted(th, last) then [last] else []
  }

  /** Every counted column of every report, in order. */
  function AllCounted(th: Thresholds, reports: seq<Report>): seq<string> {
    if reports == [] then []
    else AllCounted(th, reports[..|reports| - 1]) + CountedOf(th, reports[|reports| - 1].detectors)
  }

  function Intervals(reports: seq<Report>): nat {
    if reports == [] then 0 else Intervals(reports[..|reports| - 1]) + |reports[|reports| - 1].rows|
  }

  function PoorRows(rows: seq<Row>): (n: nat)
    ensures n <= |rows|
  {
    if rows == [] then 0 else PoorRows(rows[..|rows| - 1]) + if rows[|rows| - 1].poor then 1 else 0
  }

  function PoorIntervals(reports: seq<Report>): (n: nat)
    ensures n <= Intervals(reports)
  {
    if reports == [] then 0 else PoorIntervals(reports[..|reports| - 1]) + PoorRows(reports[|reports| - 1].rows)
  }

  function Names(ds: seq<DetectorCount>): (s: seq<string>)
    ensures |s| == |ds| && forall i :: 0 <= i < |ds| ==> s[i] == ds[i].name
  {
    seq(|ds|, i requires 0 <= i < |ds| => ds[i].name)
  }

  /** d counts, under each name, the triggering cells of that name in all reports. */
  ghost predicate CountsByName(th: Thresholds, reports: seq<Report>, d: Decomposition) {
    && Names(d.detectors) == Distinct(AllCounted(th, reports))
    && (forall i :: 0 <= i < |d.detectors| ==> d.detectors[i].count == Total(th, reports, d.detectors[i].name))
    && d.intervals == Intervals(reports) && d.poorIntervals == PoorIntervals(reports)
  }

  // ----- the algorithm over columns -----

  /** index gives the position of each detector's counter. */
  ghost predicate Indexed(ds: seq<DetectorCount>, index: map<string, nat>) {
    && NoRepeats(Names(ds))
    && (forall i :: 0 <= i < |ds| ==> ds[i].name in index && index[ds[i].name] == i)
    && (forall n :: n in index ==> index[n] < |ds| && ds[index[n]].name == n)
  }

  /** What the columns of one report are to count, and where. */
  ghost predicate SlotsFit(
    th: Thresholds, columns: seq<string>, names: seq<string>, slots: seq<int>, limits: seq<real>, known: seq<bool>) {
    && |slots| == |limits| == |known| == |columns|
    && forall i :: 0 <= i < |columns| ==> SlotFits(th, columns[i], names, slots[i], limits[i], known[i])
  }

  predicate SlotFits(th: Thresholds, column: string, names: seq<string>, slot: int, limit: real, known: bool) {
    if Counted(th, column) then
      0 <= slot < |names| && names[slot] == column && limit == Limit(th, column) && known == (column in th)
    else slot == -1
  }

  /** Counters are kept, and new ones start at nothing. */
  predicate Extends(ds: seq<DetectorCount>, es: seq<DetectorCount>) {
    |ds| <= |es| && es[..|ds|] == ds && forall i :: |ds| <= i < |es| ==> es[i].count == 0
  }

  lemma SlotsStay(
    th: Thresholds, columns: seq<string>, names: seq<string>, more: seq<string>, slots: seq<int>, limits: seq<real>,
    known: seq<bool>)
    requires SlotsFit(th, columns, names, slots, limits, known) && names <= more
    ensures SlotsFit(th, columns, more, slots, limits, known)
  {
    forall i | 0 <= i < |columns| ensures SlotFits(th, columns[i], more, slots[i], limits[i], known[i]) {
      assert SlotFits(th, columns[i], names, slots[i], limits[i], known[i]);
    }
  }

  lemma SlotsAppend(
    th: Thresholds, columns: seq<string>, names: seq<string>, slots: seq<int>, limits: seq<real>, known: seq<bool>,
    c: string, s: int, l: real, k: bool)
    requires SlotsFit(th, columns, names, slots, limits, known) && SlotFits(th, c, names, s, l, k)
    ensures SlotsFit(th, columns + [c], names, slots + [s], limits + [l], known + [k])
  {
    forall i | 0 <= i < |columns + [c]|
      ensures SlotFits(th, (columns + [c])[i], names, (slots + [s])[i], (limits + [l])[i], (known + [k])[i])
    {
      assert i < |columns| ==> SlotFits(th, columns[i], names, slots[i], limits[i], known[i]);
    }
  }

  lemma IndexNew(ds: seq<DetectorCount>, index: map<string, nat>, name: string)
    requires Indexed(ds, index) && name !in index
    ensures Indexed(ds + [DetectorCount(name, 0)], index[name := |ds|])
    ensures Names(ds + [DetectorCount(name, 0)]) == Names(ds) + [name]
    ensures name !in Names(ds)
  {
    forall i | 0 <= i < |ds| ensures ds[i].name != name { assert ds[i].name in index; }
  }

  lemma IndexOld(ds: seq<DetectorCount>, index: map<string, nat>, name: string)
    requires Indexed(ds, index) && name in index
    ensures name in Names(ds)
  {
    assert Names(ds)[index[name]] == name;
  }

  /** One column of a header: its slot, and a counter if it has none yet. */
  method AssignSlot(th: Thresholds, name: string, ds: seq<DetectorCount>, index: map<string, nat>)
    returns (slot: int, limit: real, known: bool, es: seq<DetectorCount>, newIndex: map<string, nat>)
    requires Indexed(ds, index)
    ensures Indexed(es, newIndex) && Extends(ds, es)
    ensures Names(es) == if Counted(th, name) then Noted(Names(ds), name) else Names(ds)
    ensures SlotFits(th, name, Names(es), slot, limit, known)
  {
    es, newIndex := ds, index;
    if name in th && !th[name].flagged { return -1, 0.0, false, es, newIndex; }
    limit, known := if name in th then th[name].intThresh else 0.0, name in th;
    if name !in index {
      IndexNew(ds, index, name);
      newIndex := index[name := |ds|];
      es := ds + [DetectorCount(name, 0)];
    } else {
      IndexOld(ds, index, name);
    }
    slot := newIndex[name];
  }

  lemma CountedAppend(th: Thresholds, seen: seq<string>, columns: seq<string>, name: string)
    ensures var s := Distinct(seen + CountedOf(th, columns));
            Distinct(seen + CountedOf(th, columns + [name])) == if Counted(th, name) then Noted(s, name) else s
  {
    assert (columns + [name])[..|columns|] == columns;
    var s, t := seen + CountedOf(th, columns), seen + CountedOf(th, columns + [name]);
    assert t == if Counted(th, name) then s + [name] else s;
    DistinctAppend(s, name);
  }

  lemma ExtendsOn(ds: seq<DetectorCount>, es: seq<DetectorCount>, fs: seq<DetectorCount>)
    requires Extends(ds, es) && Extends(es, fs)
    ensures Extends(ds, fs) && Names(es) <= Names(fs)
  {
    assert fs[..|ds|] == fs[..|es|][..|ds|];
    forall i | |ds| <= i < |fs| ensures fs[i].count == 0 { if i < |es| { assert fs[i] == fs[..|es|][i]; } }
    forall i | 0 <= i < |es| ensures Names(fs)[i] == Names(es)[i] { assert fs[i] == fs[..|es|][i]; }
  }

  /** The columns so far have their slots, and the counters are those of ds and the names newly seen. */
  ghost predicate Assigned(
    th: Thresholds, seen: seq<string>, columns: seq<string>, ds: seq<DetectorCount>, es: seq<DetectorCount>,
    slots: seq<int>, limits: seq<real>, known: seq<bool>) {
    && Names(es) == Distinct(seen + CountedOf(th, columns)) && Extends(ds, es)
    && SlotsFit(th, columns, Names(es), slots, limits, known)
  }

  lemma AssignedNext(
    th: Thresholds, seen: seq<string>, columns: seq<string>, ds: seq<DetectorCount>, was: seq<DetectorCount>,
    slots: seq<int>, limits: seq<real>, known: seq<bool>, name: string, es: seq<DetectorCount>, slot: int,
    limit: real, isKnown: bool)
    requires Assigned(th, seen, columns, ds, was, slots, limits, known) && Extends(was, es)
    requires Names(es) == if Counted(th, name) then Noted(Names(was), name) else Names(was)
    requires SlotFits(th, name, Names(es), slot, limit, isKnown)
    ensures Assigned(th, seen, columns + [name], ds, es, slots + [slot], limits + [limit], known + [isKnown])
  {
    CountedAppend(th, seen, columns, name);
    ExtendsOn(ds, was, es);
    SlotsStay(th, columns, Names(was), Names(es), slots, limits, known);
    SlotsAppend(th, columns, Names(es), slots, limits, known, name, slot, limit, isKnown);
  }

  /** The header loop of one report: a counter for every detector not yet seen. */
  method AssignSlots(
    th: Thresholds, columns: seq<string>, ds: seq<DetectorCount>, index: map<string, nat>, ghost seen: seq<string>)
    returns (slots: seq<int>, limits: seq<real>, known: seq<bool>, es: seq<DetectorCount>, newIndex: map<string, nat>)
    requires Indexed(ds, index) && Names(ds) == Distinct(seen)
    ensures Indexed(es, newIndex) && Assigned(th, seen, columns, ds, es, slots, limits, known)
  {
    slots, limits, known, es, newIndex := [], [], [], ds, index;
    assert seen + [] == seen;
    for i := 0 to |columns|
      invariant Indexed(es, newIndex) && Assigned(th, seen, columns[..i], ds, es, slots, limits, known)
    {
      assert columns[..i + 1] == columns[..i] + [columns[i]];
      var slot, limit, isKnown, fs;
      slot, limit, isKnown, fs, newIndex := AssignSlot(th, columns[i], es, newIndex);
      AssignedNext(th, seen, columns[..i], ds, es, slots, limits, known, columns[i], fs, slot, limit, isKnown);
      es, slots, limits, known := fs, slots + [slot], limits + [limit], known + [isKnown];
    }
    assert columns[..|columns|] == columns;
  }

  /** The triggers of a name among the first n cells. */
  function HitsBelow(th: Thresholds, columns: seq<string>, row: Row, name: string, n: nat): set<nat> {
    set idx: nat | idx < n && Hit(th, columns, row, name, idx)
  }

  lemma HitsNext(th: Thresholds, columns: seq<string>, row: Row, name: string, n: nat)
    ensures |HitsBelow(th, columns, row, name, n + 1)|
            == |HitsBelow(th, columns, row, name, n)| + if Hit(th, columns, row, name, n) then 1 else 0
  {
    var s := HitsBelow(th, columns, row, name, n);
    assert HitsBelow(th, columns, row, name, n + 1) == if Hit(th, columns, row, name, n) then s + {n} else s;
  }

  /** es is ds with each counter raised by what its detector has hit. */
  ghost predicate Raised(ds: seq<DetectorCount>, es: seq<DetectorCount>, hits: string -> nat) {
    |es| == |ds| && forall i :: 0 <= i < |ds| ==> es[i] == DetectorCount(ds[i].name, ds[i].count + hits(ds[i].name))
  }

  /** The cell loop of one row. */
  method CountRow(
    th: Thresholds, columns: seq<string>, row: Row, slots: seq<int>, limits: seq<real>, known: seq<bool>,
    ds: seq<DetectorCount>)
    returns (es: seq<DetectorCount>)
    requires NoRepeats(Names(ds)) && SlotsFit(th, columns, Names(ds), slots, limits, known)
    ensures Raised(ds, es, name => |Hits(th, columns, row, name)|)
  {
    es := ds;
    for idx := 0 to |row.values|
      invariant Raised(ds, es, name => |HitsBelow(th, columns, row, name, idx)|)
    {
      CellRaises(th, columns, row, slots, limits, known, ds, es, idx);
      if idx < |slots| && slots[idx] >= 0 && Triggered(row, idx, limits[idx], known[idx]) {
        assert SlotFits(th, columns[idx], Names(ds), slots[idx], limits[idx], known[idx]);
        var s := slots[idx];
        es := es[s := es[s].(count := es[s].count + 1)];
      }
    }
    forall i | 0 <= i < |ds|
      ensures es[i] == DetectorCount(ds[i].name, ds[i].count + |Hits(th, columns, row, ds[i].name)|)
    {
      assert HitsBelow(th, columns, row, ds[i].name, |row.values|) == Hits(th, columns, row, ds[i].name);
    }
  }

  /** The counters after the cell at idx. */
  function AfterCell(
    row: Row, slots: seq<int>, limits: seq<real>, known: seq<bool>, es: seq<DetectorCount>, idx: nat)
    : seq<DetectorCount>
    requires idx < |row.values| && |slots| == |limits| == |known|
  {
    if idx < |slots| && 0 <= slots[idx] < |es| && Triggered(row, idx, limits[idx], known[idx]) then
      es[slots[idx] := es[slots[idx]].(count := es[slots[idx]].count + 1)]
    else es
  }

  lemma CellRaises(th: Thresholds, columns: seq<string>, row: Row, slots: seq<int>, limits: seq<real>, known: seq<bool>,
                   ds: seq<DetectorCount>, es: seq<DetectorCount>, idx: nat)
    requires NoRepeats(Names(ds)) && SlotsFit(th, columns, Names(ds), slots, limits, known) && idx < |row.values|
    requires Raised(ds, es, name => |HitsBelow(th, columns, row, name, idx)|)
    ensures Raised(ds, AfterCell(row, slots, limits, known, es, idx),
                   name => |HitsBelow(th, columns, row, name, idx + 1)|)
  {
    var fs := AfterCell(row, slots, limits, known, es, idx);
    forall i | 0 <= i < |ds|
      ensures fs[i] == DetectorCount(ds[i].name, ds[i].count + |HitsBelow(th, columns, row, ds[i].name, idx + 1)|)
    {
      HitsNext(th, columns, row, ds[i].name, idx);
      HitIsSlot(th, columns, row, ds, slots, limits, known, idx, i);
    }
  }

  /** The cell at idx raises counter i exactly when it is a trigger of that counter's detector. */
  lemma HitIsSlot(
    th: Thresholds, columns: seq<string>, row: Row, ds: seq<DetectorCount>, slots: seq<int>, limits: seq<real>,
    known: seq<bool>, idx: nat, i: nat)
    requires NoRepeats(Names(ds)) && SlotsFit(th, columns, Names(ds), slots, limits, known)
    requires idx < |row.values| && i < |ds|
    ensures Hit(th, columns, row, ds[i].name, idx)
            <==> idx < |slots| && slots[idx] == i && Triggered(row, idx, limits[idx], known[idx])
  {
    if idx < |slots| {
      assert SlotFits(th, columns[idx], Names(ds), slots[idx], limits[idx], known[idx]);
      assert Names(ds)[i] == ds[i].name;
      if slots[idx] >= 0 { assert Names(ds)[slots[idx]] == columns[idx]; }
    }
  }

  lemma RowRaises(th: Thresholds, columns: seq<string>, rows: seq<Row>, i: nat,
                  ds: seq<DetectorCount>, es: seq<DetectorCount>, fs: seq<DetectorCount>)
    requires i < |rows| && Raised(ds, es, name => RowsTotal(th, columns, rows[..i], name))
    requires Raised(es, fs, name => |Hits(th, columns, rows[i], name)|)
    ensures Raised(ds, fs, name => RowsTotal(th, columns, rows[..i + 1], name)) && Names(fs) == Names(es)
  {
    PrefixNext(rows, i);
  }

  /** One report: its header, then its rows. */
  method CountRows(
    th: Thresholds, columns: seq<string>, rows: seq<Row>, slots: seq<int>, limits: seq<real>, known: seq<bool>,
    ds: seq<DetectorCount>)
    returns (es: seq<DetectorCount>, intervals: int, poor: int)
    requires NoRepeats(Names(ds)) && SlotsFit(th, columns, Names(ds), slots, limits, known)
    ensures Raised(ds, es, name => RowsTotal(th, columns, rows, name))
    ensures Names(es) == Names(ds) && intervals == |rows| && poor == PoorRows(rows)
  {
    es, intervals, poor := ds, 0, 0;
    for i := 0 to |rows|
      invariant Raised(ds, es, name => RowsTotal(th, columns, rows[..i], name))
      invariant Names(es) == Names(ds)
      invariant intervals == i && poor == PoorRows(rows[..i])
    {
      assert rows[..i + 1][..i] == rows[..i];
      intervals := intervals + 1;
      if rows[i].poor { poor := poor + 1; }
      ghost var before := es;
      es := CountRow(th, columns, rows[i], slots, limits, known, es);
      RowRaises(th, columns, rows, i, ds, before, es);
    }
    assert rows[..|rows|] == rows;
  }

  /** The counters so far are the totals of the reports so far. */
  ghost predicate TotalsSoFar(th: Thresholds, reports: seq<Report>, ds: seq<DetectorCount>) {
    forall i :: 0 <= i < |ds| ==> ds[i].count == Total(th, reports, ds[i].name)
  }

  lemma {:induction false} CountedOfMembers(th: Thresholds, columns: seq<string>, name: string)
    ensures name in CountedOf(th, columns) <==> name in columns && Counted(th, name)
  {
    if columns != [] {
      CountedOfMembers(th, columns[..|columns| - 1], name);
      assert columns == columns[..|columns| - 1] + [columns[|columns| - 1]];
    }
  }

  lemma {:induction false} NothingUnlisted(th: Thresholds, columns: seq<string>, rows: seq<Row>, name: string)
    requires name !in columns || !Counted(th, name)
    ensures RowsTotal(th, columns, rows, name) == 0
  {
    if rows != [] {
      NothingUnlisted(th, columns, rows[..|rows| - 1], name);
      assert Hits(th, columns, rows[|rows| - 1], name) == {};
    }
  }

  /** A name no report counts has no triggers. */
  lemma {:induction false} UnseenHasNone(th: Thresholds, reports: seq<Report>, name: string)
    requires name !in AllCounted(th, reports)
    ensures Total(th, reports, name) == 0
  {
    if reports != [] {
      var front, last := reports[..|reports| - 1], reports[|reports| - 1];
      UnseenHasNone(th, front, name);
      CountedOfMembers(th, last.detectors, name);
      NothingUnlisted(th, last.detectors, last.rows, name);
    }
  }

  lemma ExtendedTotals(th: Thresholds, reports: seq<Report>, ds: seq<DetectorCount>, es: seq<DetectorCount>)
    requires TotalsSoFar(th, reports, ds) && Extends(ds, es) && NoRepeats(Names(es))
    requires Names(ds) == Distinct(AllCounted(th, reports))
    ensures TotalsSoFar(th, reports, es)
  {
    forall i | 0 <= i < |es| ensures es[i].count == Total(th, reports, es[i].name) {
      if i < |ds| {
        assert es[i] == es[..|ds|][i];
      } else {
        forall j | 0 <= j < |ds| ensures Names(ds)[j] != es[i].name {
          assert es[..|ds|][j] == es[j] && Names(es)[j] != Names(es)[i];
        }
        DistinctLists(AllCounted(th, reports));
        UnseenHasNone(th, reports, es[i].name);
      }
    }
  }

  lemma IndexKept(ds: seq<DetectorCount>, es: seq<DetectorCount>, index: map<string, nat>)
    requires Indexed(ds, index) && Names(es) == Names(ds)
    ensures Indexed(es, index)
  {
    forall i | 0 <= i < |es| ensures es[i].name == ds[i].name { assert Names(es)[i] == Names(ds)[i]; }
  }

  lemma RaisedTotals(
    th: Thresholds, reports: seq<Report>, report: Report, ds: seq<DetectorCount>, es: seq<DetectorCount>)
    requires TotalsSoFar(th, reports, ds)
    requires Raised(ds, es, name => RowsTotal(th, report.detectors, report.rows, name))
    ensures TotalsSoFar(th, reports + [report], es)
  {
    assert (reports + [report])[..|reports|] == reports;
    forall i | 0 <= i < |es| ensures es[i].count == Total(th, reports + [report], es[i].name) {
      assert es[i] == DetectorCount(ds[i].name, ds[i].count + RowsTotal(th, report.detectors, report.rows, ds[i].name));
    }
  }

  /** The counters and their index after the reports so far. */
  ghost predicate Counting(th: Thresholds, reports: seq<Report>, ds: seq<DetectorCount>, index: map<string, nat>) {
    Indexed(ds, index) && Names(ds) == Distinct(AllCounted(th, reports)) && TotalsSoFar(th, reports, ds)
  }

  /** One report: its header, then its rows. */
  method AddReport(th: Thresholds, ghost before: seq<Report>, ghost after: seq<Report>, report: Report,
                   ds: seq<DetectorCount>, index: map<string, nat>)
    returns (es: seq<DetectorCount>, newIndex: map<string, nat>, intervals: int, poor: int)
    requires Counting(th, before, ds, index) && after == before + [report]
    ensures Counting(th, after, es, newIndex)
    ensures intervals == |report.rows| && poor == PoorRows(report.rows)
  {
    var slots, limits, known, more;
    slots, limits, known, more, newIndex := AssignSlots(th, report.detectors, ds, index, AllCounted(th, before));
    ExtendedTotals(th, before, ds, more);
    es, intervals, poor := CountRows(th, report.detectors, report.rows, slots, limits, known, more);
    IndexKept(more, es, newIndex);
    RaisedTotals(th, before, report, more, es);
    FrontOfAppend(before, report);
  }

  lemma IntervalsNext(reports: seq<Report>, i: nat)
    requires i < |reports|
    ensures Intervals(reports[..i + 1]) == Intervals(reports[..i]) + |reports[i].rows|
    ensures PoorIntervals(reports[..i + 1]) == PoorIntervals(reports[..i]) + PoorRows(reports[i].rows)
  {
    PrefixNext(reports, i);
  }

  lemma NothingCounted(th: Thresholds, reports: seq<Report>)
    ensures Counting(th, reports[..0], [], map[]) && Intervals(reports[..0]) == PoorIntervals(reports[..0]) == 0
  {
    assert reports[..0] == [];
  }

  /** The slot-indexed loops count by name. */
  method DecomposeWith(reports: seq<Report>, th: Thresholds) returns (d: Decomposition)
    ensures CountsByName(th, reports, d)
  {
    var detectors: seq<DetectorCount>, index: map<string, nat> := [], map[];
    var intervals, poor := 0, 0;
    NothingCounted(th, reports);
    for i := 0 to |reports|
      invariant Counting(th, reports[..i], detectors, index)
      invariant intervals == Intervals(reports[..i]) && poor == PoorIntervals(reports[..i])
    {
      PrefixNext(reports, i);
      IntervalsNext(reports, i);
      var n, p;
      detectors, index, n, p := AddReport(th, reports[..i], reports[..i + 1], reports[i], detectors, index);
      intervals, poor := intervals + n, poor + p;
    }
    assert reports[..|reports|] == reports;
    d := Decomposition(detectors, intervals, poor);
  }

  // ----- what counting by name gives -----

  /** The count shown for a name, 0 when it has no counter. */
  function CountOf(d: Decomposition, name: string): int {
    LookUp(d.detectors, name)
  }

  function LookUp(ds: seq<DetectorCount>, name: string): int {
    if ds == [] then 0
    else if ds[|ds| - 1].name == name then ds[|ds| - 1].count
    else LookUp(ds[..|ds| - 1], name)
  }

  lemma {:induction false} LookUpIs(ds: seq<DetectorCount>, name: string)
    requires NoRepeats(Names(ds))
    ensures forall i :: 0 <= i < |ds| && ds[i].name == name ==> LookUp(ds, name) == ds[i].count
    ensures name !in Names(ds) ==> LookUp(ds, name) == 0
  {
    if ds != [] {
      var front := ds[..|ds| - 1];
      assert Names(front) == Names(ds)[..|ds| - 1];
      LookUpIs(front, name);
      assert Names(ds)[|ds| - 1] == ds[|ds| - 1].name;
      forall i | 0 <= i < |front| && ds[i].name == name ensures LookUp(ds, name) == ds[i].count {
        assert Names(ds)[i] == name && front[i] == ds[i];
      }
    }
  }

  /** Whatever the columns, a name's count is the number of its triggering cells. */
  lemma CountIsTotal(th: Thresholds, reports: seq<Report>, d: Decomposition, name: string)
    requires CountsByName(th, reports, d)
    ensures CountOf(d, name) == Total(th, reports, name)
  {
    DistinctLists(AllCounted(th, reports));
    LookUpIs(d.detectors, name);
    if name in Names(d.detectors) {
      var i :| 0 <= i < |d.detectors| && Names(d.detectors)[i] == name;
      assert d.detectors[i].name == name;
    } else {
      UnseenHasNone(th, reports, name);
    }
  }

  /**
   What counts as a trigger: a marked cell; in a column with a threshold a value above it; in a column without one, in
   a poor interval, a value above 0.001. Columns whose detector is not flagged never count.
  */
  lemma TriggersExactly(th: Thresholds, columns: seq<string>, row: Row, name: string, idx: nat)
    requires idx < |row.values| && idx < |columns| && columns[idx] == name
    ensures var marked := idx < |row.marked| && row.marked[idx];
            && (name in th && !th[name].flagged ==> idx !in Hits(th, columns, row, name))
            && (name in th && th[name].flagged ==>
                  (idx in Hits(th, columns, row, name) <==> marked || row.values[idx] > th[name].intThresh))
            && (name !in th ==>
                  (idx in Hits(th, columns, row, name) <==> marked || (row.poor && row.values[idx] > 0.001)))
  {
  }

  /** One report of one interval: its own triggers, and one interval. */
  lemma OneInterval(th: Thresholds, report: Report, name: string)
    requires |report.rows| == 1
    ensures Total(th, [report], name) == |Hits(th, report.detectors, report.rows[0], name)|
    ensures Intervals([report]) == 1 && PoorIntervals([report]) == if report.rows[0].poor then 1 else 0
  {
    var rows := report.rows;
    assert [report][..0] == [] && rows[..0] == [];
    assert RowsTotal(th, report.detectors, rows[..0], name) == 0;
    assert RowsTotal(th, report.detectors, rows, name) == |Hits(th, report.detectors, rows[0], name)|;
    assert PoorRows(report.rows) == PoorRows(report.rows[..0]) + if report.rows[0].poor then 1 else 0;
    assert PoorIntervals([report]) == PoorIntervals([report][..0]) + PoorRows(report.rows);
  }

  /** The intervals of a report add up one by one. */
  lemma {:induction false} RowsAdd(th: Thresholds, columns: seq<string>, a: seq<Row>, b: seq<Row>, name: string)
    ensures RowsTotal(th, columns, a + b, name) == RowsTotal(th, columns, a, name) + RowsTotal(th, columns, b, name)
  {
    if b == [] {
      ConcatNothing(a);
    } else {
      LastOfConcat(a, b);
      RowsAdd(th, columns, a, b[..|b| - 1], name);
    }
  }

  /** The poor intervals are counted once each. */
  lemma {:induction false} PoorRowsCount(rows: seq<Row>)
    ensures PoorRows(rows) == |set i: nat | i < |rows| && rows[i].poor|
  {
    var poor := set i: nat | i < |rows| && rows[i].poor;
    if rows != [] {
      var n := |rows| - 1;
      var front := set i: nat | i < n && rows[..n][i].poor;
      PoorRowsCount(rows[..n]);
      assert poor == if rows[n].poor then front + {n} else front;
    } else {
      assert poor == {};
    }
  }

  lemma {:induction false} TotalsAdd(th: Thresholds, a: seq<Report>, b: seq<Report>, name: string)
    ensures Total(th, a + b, name) == Total(th, a, name) + Total(th, b, name)
    ensures Intervals(a + b) == Intervals(a) + Intervals(b)
    ensures PoorIntervals(a + b) == PoorIntervals(a) + PoorIntervals(b)
    ensures AllCounted(th, a + b) == AllCounted(th, a) + AllCounted(th, b)
  {
    if b == [] {
      ConcatNothing(a);
      ConcatNothing(AllCounted(th, a));
    } else {
      TotalsAdd(th, a, b[..|b| - 1], name);
      LastOfConcat(a, b);
      Associative(AllCounted(th, a), AllCounted(th, b[..|b| - 1]), CountedOf(th, b[|b| - 1].detectors));
    }
  }

  /** Decomposing reports together gives the sums of decomposing them apart, the earlier ones' detectors first. */
  lemma DecompositionsAdd(
    th: Thresholds, a: seq<Report>, b: seq<Report>, da: Decomposition, db: Decomposition, dab: Decomposition)
    requires CountsByName(th, a, da) && CountsByName(th, b, db) && CountsByName(th, a + b, dab)
    ensures forall name :: CountOf(dab, name) == CountOf(da, name) + CountOf(db, name)
    ensures dab.intervals == da.intervals + db.intervals && dab.poorIntervals == da.poorIntervals + db.poorIntervals
    ensures Names(da.detectors) <= Names(dab.detectors)
  {
    TotalsAdd(th, a, b, "");
    DistinctExtends(AllCounted(th, a), AllCounted(th, b));
    forall name ensures CountOf(dab, name) == CountOf(da, name) + CountOf(db, name) {
      CountIsTotal(th, a, da, name);
      CountIsTotal(th, b, db, name);
      CountIsTotal(th, a + b, dab, name);
      TotalsAdd(th, a, b, name);
    }
  }

  // ----- the order of columns -----

  /** p lists every position below n once. */
  ghost predicate Permutes(p: seq<nat>, n: nat) {
    |p| == n && (forall i :: 0 <= i < n ==> p[i] < n) && NoRepeats(p)
  }

  /** Every row has a cell and a mark for every column. */
  predicate Rectangular(r: Report) {
    forall i :: 0 <= i < |r.rows| ==> |r.rows[i].values| == |r.rows[i].marked| == |r.detectors|
  }

  function Pick<T>(s: seq<T>, p: seq<nat>): (t: seq<T>)
    requires forall i :: 0 <= i < |p| ==> p[i] < |s|
    ensures |t| == |p| && forall i :: 0 <= i < |p| ==> t[i] == s[p[i]]
  {
    seq(|p|, i requires 0 <= i < |p| => s[p[i]])
  }

  /** r with its columns in the order p. */
  ghost predicate Reordered(r: Report, q: Report, p: seq<nat>) {
    && Rectangular(r) && Permutes(p, |r.detectors|)
    && q.detectors == Pick(r.detectors, p) && |q.rows| == |r.rows|
    && forall i :: 0 <= i < |r.rows| ==>
         q.rows[i] == Row(r.rows[i].poor, Pick(r.rows[i].values, p), Pick(r.rows[i].marked, p))
  }

  ghost function Sent(s: set<nat>, p: seq<nat>): set<nat>
    requires forall x :: x in s ==> x < |p|
  {
    set x | x in s :: p[x]
  }

  lemma {:induction false} SentKeepsSize(s: set<nat>, p: seq<nat>)
    requires (forall x :: x in s ==> x < |p|) && NoRepeats(p)
    ensures |Sent(s, p)| == |s|
    decreases |s|
  {
    if s != {} {
      var x :| x in s;
      SentKeepsSize(s - {x}, p);
      assert Sent(s, p) == Sent(s - {x}, p) + {p[x]};
      assert p[x] !in Sent(s - {x}, p);
    }
  }

  function Below(n: nat): (s: set<nat>)
    ensures |s| == n && forall i: nat :: i in s <==> i < n
  {
    if n == 0 then {} else Below(n - 1) + {n - 1}
  }

  lemma PermutationHitsAll(p: seq<nat>, n: nat, y: nat)
    requires Permutes(p, n) && y < n
    ensures y in p
  {
    ElemsOfDistinct(p);
    SubsetOfSameSize(Elems(p), Below(n));
    assert y in Below(n);
  }

  lemma RowReordered(th: Thresholds, columns: seq<string>, row: Row, p: seq<nat>, name: string)
    requires |row.values| == |row.marked| == |columns| && Permutes(p, |columns|)
    ensures |Hits(th, Pick(columns, p), Row(row.poor, Pick(row.values, p), Pick(row.marked, p)), name)|
            == |Hits(th, columns, row, name)|
  {
    var moved := Row(row.poor, Pick(row.values, p), Pick(row.marked, p));
    var s, t := Hits(th, Pick(columns, p), moved, name), Hits(th, columns, row, name);
    SentKeepsSize(s, p);
    forall y | y in t ensures y in Sent(s, p) {
      PermutationHitsAll(p, |columns|, y);
      var i :| 0 <= i < |p| && p[i] == y;
      assert Hit(th, Pick(columns, p), moved, name, i);
      assert i in s;
    }
    assert Sent(s, p) == t;
  }

  lemma TotalsNext(th: Thresholds, columns: seq<string>, rows: seq<Row>, name: string, n: nat)
    requires n < |rows|
    ensures RowsTotal(th, columns, rows[..n + 1], name)
            == RowsTotal(th, columns, rows[..n], name) + |Hits(th, columns, rows[n], name)|
    ensures PoorRows(rows[..n + 1]) == PoorRows(rows[..n]) + if rows[n].poor then 1 else 0
  {
    assert rows[..n + 1][..n] == rows[..n];
  }

  lemma {:induction false} RowsReordered(th: Thresholds, r: Report, q: Report, p: seq<nat>, name: string, n: nat)
    requires Reordered(r, q, p) && n <= |r.rows|
    ensures RowsTotal(th, q.detectors, q.rows[..n], name) == RowsTotal(th, r.detectors, r.rows[..n], name)
    ensures PoorRows(q.rows[..n]) == PoorRows(r.rows[..n])
  {
    if n > 0 {
      RowsReordered(th, r, q, p, name, n - 1);
      RowReordered(th, r.detectors, r.rows[n - 1], p, name);
      TotalsNext(th, r.detectors, r.rows, name, n - 1);
      TotalsNext(th, q.detectors, q.rows, name, n - 1);
    }
  }

  /** Reports that differ in the order of their columns. */
  ghost predicate AllReordered(rs: seq<Report>, qs: seq<Report>, ps: seq<seq<nat>>) {
    |rs| == |qs| == |ps| && forall i :: 0 <= i < |rs| ==> Reordered(rs[i], qs[i], ps[i])
  }

  lemma {:induction false} TotalsReordered(
    th: Thresholds, rs: seq<Report>, qs: seq<Report>, ps: seq<seq<nat>>, name: string)
    requires AllReordered(rs, qs, ps)
    ensures Total(th, qs, name) == Total(th, rs, name)
    ensures Intervals(qs) == Intervals(rs) && PoorIntervals(qs) == PoorIntervals(rs)
  {
    if rs != [] {
      var n := |rs| - 1;
      TotalsReordered(th, rs[..n], qs[..n], ps[..n], name);
      RowsReordered(th, rs[n], qs[n], ps[n], name, |rs[n].rows|);
      assert rs[n].rows[..|rs[n].rows|] == rs[n].rows && qs[n].rows[..|rs[n].rows|] == qs[n].rows;
    }
  }

  /** Counts follow names: reordering the columns of any reports changes no count. */
  lemma ColumnOrderIsIrrelevant(
    th: Thresholds, rs: seq<Report>, qs: seq<Report>, ps: seq<seq<nat>>, d: Decomposition, e: Decomposition)
    requires AllReordered(rs, qs, ps) && CountsByName(th, rs, d) && CountsByName(th, qs, e)
    ensures forall name :: CountOf(e, name) == CountOf(d, name)
    ensures e.intervals == d.intervals && e.poorIntervals == d.poorIntervals
  {
    TotalsReordered(th, rs, qs, ps, "");
    forall name ensures CountOf(e, name) == CountOf(d, name) {
      CountIsTotal(th, rs, d, name);
      CountIsTotal(th, qs, e, name);
      TotalsReordered(th, rs, qs, ps, name);
    }
  }

  // ----- the R-factor -----

  predicate KeepsOrder(round: real -> real, x: real, y: real) {
    x <= y ==> round(x) <= round(y)
  }

  /** Rounding to float64: it keeps order and is exact on 0, 1 and 100. */
  ghost predicate Rounds(round: real -> real) {
    (forall x, y :: KeepsOrder(round, x, y)) && round(0.0) == 0.0 && round(1.0) == 1.0 && round(100.0) == 100.0
  }

  function Ratio(part: int, whole: int): real
    requires whole > 0
  {
    part as real / whole as real
  }

  function Percents(share: real, round: real -> real): real {
    round(round(share) * 100.0)
  }

  /** Conversion of a float to an int: towards zero. */
  function Truncate(x: real): int {
    if x >= 0.0 then x.Floor else -((-x).Floor)
  }

  /** The share of intervals that are not poor, in whole percent. */
  function RfactorPercents(d: Decomposition, round: real -> real): int {
    if d.intervals <= 0 then 0
    else
      var pct := Truncate(Percents(Ratio(d.intervals - d.poorIntervals, d.intervals), round));
      if pct > 100 then 100 else pct
  }

  /** Without rounding the R-factor is the whole percentage of intervals that are not poor. */
  lemma RfactorIs(d: Decomposition)
    requires 0 <= d.poorIntervals <= d.intervals && d.intervals > 0
    ensures RfactorPercents(d, (x: real) => x) == 100 * (d.intervals - d.poorIntervals) / d.intervals
  {
    var part, whole := d.intervals - d.poorIntervals, d.intervals;
    var x := Ratio(part, whole) * 100.0;
    CrossOut(part as real, whole as real);
    PercentOf(part, whole, 100 * part / whole, x);
  }

  lemma CrossOut(part: real, whole: real)
    requires whole > 0.0
    ensures part / whole * 100.0 * whole == 100.0 * part
  {
  }

  lemma Divided(n: nat, whole: nat, q: int)
    requires whole > 0 && q == n / whole
    ensures q * whole <= n < (q + 1) * whole
  {
  }

  lemma AtMostHundred(part: nat, whole: nat)
    requires whole > 0 && part <= whole
    ensures 0 <= 100 * part / whole <= 100
  {
    var q := 100 * part / whole;
    Divided(100 * part, whole, q);
    if q > 100 { Multiples(101, q, whole); }
    if q < 0 { Multiples(q + 1, 0, whole); }
  }

  lemma Multiples(a: int, b: int, whole: nat)
    requires a <= b
    ensures a * whole <= b * whole
  {
  }

  /** q percent are part of x percent, and q + 1 are more. */
  lemma FloorBetween(q: int, x: real, w: real, lo: int, n: int, hi: int)
    requires w > 0.0 && lo <= n < hi && x * w == n as real
    requires q as real * w == lo as real && (q + 1) as real * w == hi as real
    ensures x.Floor == q
  {
    Cancel(q as real, x, w, lo as real, n as real);
    CancelStrictly(x, (q + 1) as real, w, n as real, hi as real);
  }

  lemma PercentOf(part: nat, whole: nat, q: int, x: real)
    requires whole > 0 && part <= whole && q == 100 * part / whole && x * whole as real == 100.0 * part as real
    ensures x.Floor == q && 0 <= q <= 100
  {
    AtMostHundred(part, whole);
    Divided(100 * part, whole, q);
    RealProduct(q, whole, q * whole);
    RealProduct(q + 1, whole, (q + 1) * whole);
    FloorBetween(q, x, whole as real, q * whole, 100 * part, (q + 1) * whole);
  }

  lemma RealProduct(a: int, b: int, c: int)
    requires c == a * b
    ensures c as real == a as real * b as real
  {
  }

  lemma Cancel(x: real, y: real, w: real, xw: real, yw: real)
    requires w > 0.0 && xw == x * w && yw == y * w && xw <= yw
    ensures x <= y
  {
    if x > y { Larger(x, y, w); }
  }

  lemma CancelStrictly(x: real, y: real, w: real, xw: real, yw: real)
    requires w > 0.0 && xw == x * w && yw == y * w && xw < yw
    ensures x < y
  {
    if x > y { Larger(x, y, w); }
  }

  lemma Larger(x: real, y: real, w: real)
    requires x > y && w > 0.0
    ensures x * w > y * w
  {
  }

  lemma RatioBetween(part: int, more: int, whole: int)
    requires 0 <= part <= more <= whole && whole > 0
    ensures 0.0 <= Ratio(part, whole) <= Ratio(more, whole) <= 1.0
    ensures Ratio(0, whole) == 0.0 && Ratio(whole, whole) == 1.0
  {
  }

  lemma PercentsBetween(x: real, y: real, round: real -> real)
    requires Rounds(round) && 0.0 <= x <= y <= 1.0
    ensures 0.0 <= Percents(x, round) <= Percents(y, round) <= 100.0
  {
    assert KeepsOrder(round, 0.0, x) && KeepsOrder(round, x, y) && KeepsOrder(round, y, 1.0);
    var a, b := round(x) * 100.0, round(y) * 100.0;
    assert KeepsOrder(round, 0.0, a) && KeepsOrder(round, a, b) && KeepsOrder(round, b, 100.0);
  }

  /** The R-factor of any reports lies in 0..100, is 100 without poor intervals, and does not rise with more of them. */
  lemma RfactorInRange(
    th: Thresholds, reports: seq<Report>, d: Decomposition, worse: Decomposition, round: real -> real)
    requires Rounds(round) && CountsByName(th, reports, d)
    requires worse.intervals == d.intervals && d.poorIntervals <= worse.poorIntervals <= worse.intervals
    ensures 0 <= RfactorPercents(worse, round) <= RfactorPercents(d, round) <= 100
    ensures d.poorIntervals == 0 && d.intervals > 0 ==> RfactorPercents(d, round) == 100
    ensures d.poorIntervals == d.intervals ==> RfactorPercents(d, round) == 0
  {
    var n := d.intervals;
    if n > 0 {
      RatioBetween(n - worse.poorIntervals, n - d.poorIntervals, n);
      PercentsBetween(Ratio(n - worse.poorIntervals, n), Ratio(n - d.poorIntervals, n), round);
    }
  }
}

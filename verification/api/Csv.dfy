/** The CSV export: basic columns and one column per detector name, counts placed by name. */
module CsvExport {
  import opened Texts
  import opened FirstSeen
  import opened Lists
  import opened PvqaDecomposition

  const BASIC_HEADERS: seq<string> := [
    "Source", "Destination", "SSRC", "DB_ID", "Time_Start", "Length",
    "Sevana_MOS", "Sevana_Rfactor", "Network_MOS", "Jitter",
    "Rtp_Received", "Rtp_Lost", "Call_ID", "SIP_source", "SIP_dest"]

  /** One exported stream: its basic cells, and its decomposition in a detailed export. */
  datatype CsvStream = CsvStream(basic: seq<string>, detectors: seq<DetectorCount>)

  // ----- the specification -----

  function AllNames(streams: seq<CsvStream>): seq<string> {
    if streams == [] then [] else AllNames(streams[..|streams| - 1]) + Names(streams[|streams| - 1].detectors)
  }

  function Columns(streams: seq<CsvStream>, detailed: bool): seq<string> {
    if detailed then Distinct(AllNames(streams)) else []
  }

  /** The text under a name in a stream's row: its count, or nothing if the stream did not run the detector. */
  function CellText(ds: seq<DetectorCount>, name: string): string {
    if ds == [] then ""
    else if ds[|ds| - 1].name == name then FormatInt(ds[|ds| - 1].count)
    else CellText(ds[..|ds| - 1], name)
  }

  predicate CellFits(s: CsvStream, names: seq<string>, row: seq<string>, c: nat)
    requires |row| == |s.basic| + |names| && c < |names|
  {
    row[|s.basic| + c] == CellText(s.detectors, names[c])
  }

  predicate RowFits(s: CsvStream, names: seq<string>, row: seq<string>) {
    && |row| == |s.basic| + |names| && row[..|s.basic|] == s.basic
    && forall c :: 0 <= c < |names| ==> CellFits(s, names, row, c)
  }

  /** The table: a header of basic columns and detector names, then a row per stream. */
  ghost predicate TableFits(streams: seq<CsvStream>, detailed: bool, table: seq<seq<string>>) {
    && |table| == |streams| + 1
    && table[0] == BASIC_HEADERS + Columns(streams, detailed)
    && forall k :: 0 <= k < |streams| ==> RowFits(streams[k], Columns(streams, detailed), table[k + 1])
  }

  // ----- the algorithm -----

  ghost predicate ColumnMap(names: seq<string>, column: map<string, nat>) {
    && NoRepeats(names)
    && (forall i :: 0 <= i < |names| ==> names[i] in column && column[names[i]] == i)
    && (forall n :: n in column ==> column[n] < |names| && names[column[n]] == n)
  }

  /** The names of one stream, those not yet seen as new columns. */
  method AddColumns(ds: seq<DetectorCount>, names: seq<string>, column: map<string, nat>, ghost seen: seq<string>)
    returns (more: seq<string>, wider: map<string, nat>)
    requires ColumnMap(names, column) && names == Distinct(seen)
    ensures ColumnMap(more, wider) && more == Distinct(seen + Names(ds))
  {
    more, wider := names, column;
    ghost var all := Names(ds);
    ConcatNothing(seen);
    for i := 0 to |ds|
      invariant ColumnMap(more, wider) && more == Distinct(seen + all[..i])
    {
      var name := ds[i].name;
      NextColumn(seen, all, i, more, wider);
      if name !in wider {
        wider := wider[name := |more|];
        more := more + [name];
      }
    }
    assert all[..|ds|] == all;
  }

  /** Whether the next name is a new column, and what columns there are with it. */
  lemma NextColumn(seen: seq<string>, all: seq<string>, i: nat, names: seq<string>, column: map<string, nat>)
    requires i < |all| && ColumnMap(names, column) && names == Distinct(seen + all[..i])
    ensures Distinct(seen + all[..i + 1]) == if all[i] in column then names else names + [all[i]]
    ensures all[i] !in column ==> ColumnMap(names + [all[i]], column[all[i] := |names|])
  {
    PrefixNext(all, i);
    Associative(seen, all[..i], [all[i]]);
    DistinctAppend(seen + all[..i], all[i]);
    if all[i] in column {
      assert names[column[all[i]]] == all[i];
    } else {
      ColumnAdded(names, column, all[i]);
    }
  }

  lemma ColumnAdded(names: seq<string>, column: map<string, nat>, name: string)
    requires ColumnMap(names, column) && name !in column
    ensures name !in names && ColumnMap(names + [name], column[name := |names|])
  {
    forall n | n in names ensures n in column {
      var i :| 0 <= i < |names| && names[i] == n;
      assert names[i] in column;
    }
    NoRepeatsAppend(names, name);
  }

  /** The detector cells of one row; a later count of a name overwrites an earlier one. */
  method DetectorCells(ds: seq<DetectorCount>, ghost names: seq<string>, column: map<string, nat>, width: nat)
    returns (det: seq<string>)
    requires ColumnMap(names, column) && width == |names|
    requires forall i :: 0 <= i < |ds| ==> ds[i].name in column
    ensures |det| == width && forall c :: 0 <= c < width ==> det[c] == CellText(ds, names[c])
  {
    det := seq(width, _ => "");
    for i := 0 to |ds|
      invariant |det| == width && forall c :: 0 <= c < width ==> det[c] == CellText(ds[..i], names[c])
    {
      assert ds[..i + 1][..i] == ds[..i];
      det := det[column[ds[i].name] := FormatInt(ds[i].count)];
    }
    assert ds[..|ds|] == ds;
  }

  lemma {:induction false} NamesListed(streams: seq<CsvStream>, k: nat, i: nat)
    requires k < |streams| && i < |streams[k].detectors|
    ensures streams[k].detectors[i].name in AllNames(streams)
  {
    if k == |streams| - 1 {
      assert Names(streams[k].detectors)[i] == streams[k].detectors[i].name;
    } else {
      NamesListed(streams[..|streams| - 1], k, i);
    }
  }

  method CollectColumns(streams: seq<CsvStream>) returns (names: seq<string>, column: map<string, nat>)
    ensures ColumnMap(names, column) && names == Distinct(AllNames(streams))
  {
    names, column := [], map[];
    for k := 0 to |streams|
      invariant ColumnMap(names, column) && names == Distinct(AllNames(streams[..k]))
    {
      assert streams[..k + 1][..k] == streams[..k];
      names, column := AddColumns(streams[k].detectors, names, column, AllNames(streams[..k]));
    }
    assert streams[..|streams|] == streams;
  }

  /** The rows handed to the CSV writer. */
  method RenderCsv(streams: seq<CsvStream>, detailed: bool) returns (table: seq<seq<string>>)
    ensures TableFits(streams, detailed, table)
  {
    var names: seq<string>, column: map<string, nat> := [], map[];
    if detailed { names, column := CollectColumns(streams); }
    table := [BASIC_HEADERS + names];
    for k := 0 to |streams|
      invariant |table| == k + 1 && table[0] == BASIC_HEADERS + names
      invariant forall m :: 0 <= m < k ==> RowFits(streams[m], names, table[m + 1])
    {
      var s := streams[k];
      var row := s.basic;
      if detailed {
        forall i | 0 <= i < |s.detectors| ensures s.detectors[i].name in column {
          NamesListed(streams, k, i);
          DistinctLists(AllNames(streams));
          var c :| 0 <= c < |names| && names[c] == s.detectors[i].name;
        }
        var det := DetectorCells(s.detectors, names, column, |names|);
        row := row + det;
      }
      assert RowFits(s, names, row);
      table := table + [row];
    }
  }

  // ----- main results -----

  lemma {:induction false} CellTextIs(ds: seq<DetectorCount>, name: string)
    requires NoRepeats(Names(ds))
    ensures forall i :: 0 <= i < |ds| && ds[i].name == name ==> CellText(ds, name) == FormatInt(ds[i].count)
    ensures name !in Names(ds) ==> CellText(ds, name) == ""
  {
    if ds != [] {
      var front := ds[..|ds| - 1];
      assert Names(front) == Names(ds)[..|ds| - 1];
      CellTextIs(front, name);
      assert Names(ds)[|ds| - 1] == ds[|ds| - 1].name;
      forall i | 0 <= i < |front| && ds[i].name == name ensures CellText(ds, name) == FormatInt(ds[i].count) {
        assert Names(ds)[i] == name && front[i] == ds[i];
      }
    }
  }

  /** Given basic cells for the basic columns, every row is as long as the header. */
  lemma RowsAreRectangular(streams: seq<CsvStream>, detailed: bool, table: seq<seq<string>>)
    requires TableFits(streams, detailed, table)
    requires forall k :: 0 <= k < |streams| ==> |streams[k].basic| == |BASIC_HEADERS|
    ensures forall k :: 0 <= k < |table| ==> |table[k]| == |table[0]|
  {
    forall k | 0 < k < |table| ensures |table[k]| == |table[0]| {
      assert RowFits(streams[k - 1], Columns(streams, detailed), table[k]);
    }
  }

  /** What a reader finds in a detailed export of decomposed streams. */
  ghost predicate Decomposed(th: Thresholds, s: CsvStream, reports: seq<Report>) {
    exists d :: CountsByName(th, reports, d) && s.detectors == d.detectors
  }

  /**
   * In a detailed export, the cell of stream k under a detector's header is the number of that detector's triggering
   * cells in the stream's reports, or empty if none of its reports counts that detector.
   */
  lemma ExportShowsTotals(
    th: Thresholds, streams: seq<CsvStream>, reports: seq<Report>, table: seq<seq<string>>, k: nat, c: nat)
    requires TableFits(streams, true, table) && k < |streams|
    requires |streams[k].basic| == |BASIC_HEADERS| && Decomposed(th, streams[k], reports)
    requires |BASIC_HEADERS| <= c < |table[0]|
    ensures c < |table[k + 1]|
    ensures table[k + 1][c] == if table[0][c] in AllCounted(th, reports)
            then FormatInt(Total(th, reports, table[0][c])) else ""
  {
    var names := Columns(streams, true);
    var b := c - |BASIC_HEADERS|;
    var name := names[b];
    assert table[0][c] == name;
    assert RowFits(streams[k], names, table[k + 1]) && CellFits(streams[k], names, table[k + 1], b);
    var d :| CountsByName(th, reports, d) && streams[k].detectors == d.detectors;
    DistinctLists(AllCounted(th, reports));
    CellTextIs(d.detectors, name);
    if name in Names(d.detectors) {
      var i :| 0 <= i < |d.detectors| && Names(d.detectors)[i] == name;
      assert d.detectors[i].name == name;
    }
  }

  /** Two columns never carry the same header, and every stream's detectors have one. */
  lemma HeadersDistinct(streams: seq<CsvStream>, table: seq<seq<string>>)
    requires TableFits(streams, true, table)
    ensures ListsFirstSeen(AllNames(streams), table[0][|BASIC_HEADERS|..])
  {
    DistinctLists(AllNames(streams));
    assert table[0][|BASIC_HEADERS|..] == Distinct(AllNames(streams));
  }
}

/**
 What the name map puts in for a field: a plain column or an expression in its own brackets, and what the emitted
 fragment is once they are read as the SQL they are.
*/
module FilterColumns {
  import opened Lists
  import opened Results
  import opened Texts
  import opened FilterLexer
  import opened FilterParser
  import opened FilterEvaluate
  import opened FilterSql
  import opened FilterSqlText
  import opened FilterMeaning

  /** The SQL expression of each field a filter may name. */
  type Columns = map<string, SqlExpr>

  function TextsOf(columns: Columns, h: Host): NameMap {
    map field | field in columns :: Render(columns[field].Lexemes(), h)
  }

  /** The name map that stands for the fields themselves. */
  function OwnNames(columns: Columns): NameMap {
    map field | field in columns :: field
  }

  predicate Knows(columns: Columns, e: Node) {
    KnownNames(e, OwnNames(columns))
  }

  function Substitute(t: SqlExpr, columns: Columns): SqlExpr {
    match t
    case Atom(x) => if x.Column? && x.column in columns then columns[x.column] else t
    case Paren(a) => Paren(Substitute(a, columns))
    case Binary(op, l, r) => Binary(op, Substitute(l, columns), Substitute(r, columns))
    case Lower(a) => Lower(Substitute(a, columns))
    case Cast(ty, a) => Cast(ty, Substitute(a, columns))
    case Call(fn, a, b) => Call(fn, Substitute(a, columns), Substitute(b, columns))
  }

  /** The filter with every field's expression written out. */
  function Expanded(e: Node, columns: Columns): SqlExpr
    requires Knows(columns, e)
  {
    Substitute(Compiled(e, OwnNames(columns)), columns)
  }

  lemma ExpandedLeaf(e: Node, columns: Columns)
    requires Knows(columns, e) && !e.BinOp?
    ensures Expanded(e, columns) == match e
                                    case Constant(num) => Atom(NumberText(num))
                                    case Literal(_) => Atom(Mark)
                                    case Var(field) => columns[field]
  {
  }

  lemma ExpandedOperator(op: Op, l: Node, r: Node, columns: Columns)
    requires Knows(columns, BinOp(op, l, r))
    ensures var a, b := Expanded(l, columns), Expanded(r, columns);
            Expanded(BinOp(op, l, r), columns) ==
            if op == Like then
              Paren(Binary(Gt, Call(InstrFn, Lower(Cast(AsText, a)), Lower(b)), Atom(NumberText(Whole(0)))))
            else Paren(Binary(op, a, b))
  {
    var a, b := Compiled(l, OwnNames(columns)), Compiled(r, OwnNames(columns));
    if op == Like {
      assert Substitute(Lower(Cast(AsText, a)), columns) == Lower(Cast(AsText, Expanded(l, columns)));
      assert Substitute(Lower(b), columns) == Lower(Expanded(r, columns));
      var call, zero := Call(InstrFn, Lower(Cast(AsText, a)), Lower(b)), Atom(NumberText(Whole(0)));
      var done := Call(InstrFn, Lower(Cast(AsText, Expanded(l, columns))), Lower(Expanded(r, columns)));
      assert Substitute(call, columns) == done && Substitute(zero, columns) == zero;
      assert Substitute(Binary(Gt, call, zero), columns) == Binary(Gt, done, zero);
      assert Substitute(Paren(Binary(Gt, call, zero)), columns) == Paren(Binary(Gt, done, zero));
    } else {
      assert Substitute(Binary(op, a, b), columns) == Binary(op, Expanded(l, columns), Expanded(r, columns));
    }
  }

  // ----- the emitted text -----

  /** What is emitted is the expanded expression. */
  lemma {:induction false} EmitsExpanded(e: Node, columns: Columns, h: Host)
    ensures ToSql(e, TextsOf(columns, h), h).Ok? <==> Knows(columns, e)
    ensures Knows(columns, e) ==>
              ToSql(e, TextsOf(columns, h), h) == Ok(Fragment(Render(Expanded(e, columns).Lexemes(), h), Strings(e)))
  {
    match e
    case Constant(num) =>
      ExpandedLeaf(e, columns);
      RenderOne(NumberText(num), h);
    case Literal(_) =>
      ExpandedLeaf(e, columns);
      RenderOne(Mark, h);
    case Var(_) => if Knows(columns, e) { ExpandedLeaf(e, columns); }
    case BinOp(op, l, r) =>
      EmitsExpanded(l, columns, h);
      EmitsExpanded(r, columns, h);
      if Knows(columns, e) {
        ExpandedOperator(op, l, r, columns);
        RenderOperator(op, Expanded(l, columns), Expanded(r, columns), h);
      }
  }

  /** Column names and numbers are written without quotes and comments. */
  ghost predicate PlainAtoms(t: SqlExpr, h: Host) {
    match t
    case Atom(x) => PlainLexeme(x, h)
    case Paren(a) => PlainAtoms(a, h)
    case Binary(_, l, r) => PlainAtoms(l, h) && PlainAtoms(r, h)
    case Lower(a) => PlainAtoms(a, h)
    case Cast(_, a) => PlainAtoms(a, h)
    case Call(_, a, b) => PlainAtoms(a, h) && PlainAtoms(b, h)
  }

  lemma {:induction false} PlainExpression(t: SqlExpr, h: Host)
    requires PlainAtoms(t, h)
    ensures AllPlain(t.Lexemes(), h)
  {
    PlainSign(Open, h);
    PlainSign(Close, h);
    PlainSign(Comma, h);
    match t
    case Atom(_) =>
    case Paren(a) => PlainExpression(a, h);
    case Binary(op, l, r) =>
      PlainExpression(l, h);
      PlainExpression(r, h);
      PlainOperator(op, h);
    case Lower(a) =>
      PlainExpression(a, h);
      PlainSign(Word(LowerKw), h);
    case Cast(ty, a) =>
      PlainExpression(a, h);
      PlainSign(Word(CastKw), h);
      PlainSign(Word(AsKw), h);
      PlainSign(Word(TypeKw(ty)), h);
    case Call(fn, a, b) =>
      PlainExpression(a, h);
      PlainExpression(b, h);
      PlainSign(Word(FnKw(fn)), h);
  }

  /** A tokenizer that splits at delimiters reads the text as the lexemes of the expanded expression. */
  lemma ExpandedSplits<T(!new)>(tokens: string -> seq<T>, e: Node, columns: Columns, h: Host)
    requires SplitsAtDelimiters(tokens) && Knows(columns, e) && PlainAtoms(Expanded(e, columns), h)
    ensures ToSql(e, TextsOf(columns, h), h).Ok?
    ensures tokens(ToSql(e, TextsOf(columns, h), h).value.text) == TokensOf(tokens, Expanded(e, columns).Lexemes(), h)
  {
    EmitsExpanded(e, columns, h);
    ExpressionsAreSpaced(Expanded(e, columns));
    PlainExpression(Expanded(e, columns), h);
    RenderSplits(tokens, Expanded(e, columns).Lexemes(), h);
  }

  // ----- no regrouping, whatever the columns hold -----

  /** A column whose operators stand alone inside brackets, but for one that may stand outside them. */
  ghost predicate Composed(t: SqlExpr) {
    t.Valid() && FullyBracketed(Paren(t))
  }

  ghost predicate AllComposed(columns: Columns) {
    forall field :: field in columns ==> Composed(columns[field])
  }

  /** Every column is a name, a call, or enclosed in its own brackets. */
  predicate AllEnclosed(columns: Columns) {
    forall field :: field in columns ==> !columns[field].Binary?
  }

  /** Whatever precedence a reader applies, it can group what is emitted in one way only. */
  ghost predicate OneReading(e: Node, columns: Columns)
    requires Knows(columns, e)
  {
    forall u: SqlExpr :: u.Valid() && u.Lexemes() == Expanded(e, columns).Lexemes() ==> u == Expanded(e, columns)
  }

  lemma {:induction false} SubstituteBracketed(t: SqlExpr, columns: Columns)
    requires t.Valid() && AllComposed(columns) && AllEnclosed(columns)
    ensures Substitute(t, columns).Valid() && (Substitute(t, columns).Binary? <==> t.Binary?)
    ensures FullyBracketed(t) ==> FullyBracketed(Substitute(t, columns))
    ensures FullyBracketed(Paren(t)) ==> FullyBracketed(Paren(Substitute(t, columns)))
  {
    match t
    case Atom(_) =>
    case Paren(a) => SubstituteBracketed(a, columns);
    case Binary(_, l, r) =>
      SubstituteBracketed(l, columns);
      SubstituteBracketed(r, columns);
    case Lower(a) => SubstituteBracketed(a, columns);
    case Cast(_, a) => SubstituteBracketed(a, columns);
    case Call(_, a, b) =>
      SubstituteBracketed(a, columns);
      SubstituteBracketed(b, columns);
  }

  lemma ExpandedReadsOneWay(e: Node, columns: Columns)
    requires Knows(columns, e) && AllComposed(columns) && AllEnclosed(columns)
    ensures OneReading(e, columns)
  {
    CompiledIsBracketed(e, OwnNames(columns));
    SubstituteBracketed(Compiled(e, OwnNames(columns)), columns);
    var t := Expanded(e, columns);
    forall u: SqlExpr | u.Valid() && u.Lexemes() == t.Lexemes() ensures u == t {
      Delimited(t, u, [Close], [Close]);
    }
  }

  /** A column with an operator outside brackets: twice the field groups in a second way. */
  lemma OpenColumnRegroups(field: string, columns: Columns)
    requires field in columns && columns[field].Valid() && columns[field].Binary?
    ensures var e := BinOp(Mul, Var(field), Constant(Whole(2))); Knows(columns, e) && !OneReading(e, columns)
  {
    var e, c, two := BinOp(Mul, Var(field), Constant(Whole(2))), columns[field], Atom(NumberText(Whole(2)));
    ExpandedOperator(Mul, Var(field), Constant(Whole(2)), columns);
    ExpandedLeaf(Var(field), columns);
    ExpandedLeaf(Constant(Whole(2)), columns);
    var t, u := Binary(Mul, c, two), Binary(c.op, c.left, Binary(Mul, c.right, two));
    SameLexemes(c.left.Lexemes(), [Infix(c.op)], c.right.Lexemes(), [Infix(Mul)], two.Lexemes());
    assert u.Lexemes() == t.Lexemes();
    assert u.Valid() && Paren(u).Valid() && u != t;
    assert Paren(u).Lexemes() == Paren(t).Lexemes();
  }

  lemma SameLexemes(a: seq<Lexeme>, o: seq<Lexeme>, b: seq<Lexeme>, p: seq<Lexeme>, c: seq<Lexeme>)
    ensures (a + o + b) + p + c == a + o + (b + p + c)
  {
  }

  ghost predicate AllReadOneWay(columns: Columns) {
    forall e: Node :: Knows(columns, e) ==> OneReading(e, columns)
  }

  /** No filter can be regrouped, exactly when every column is a name, a call, or has brackets of its own. */
  lemma OneReadingExact(columns: Columns)
    requires AllComposed(columns)
    ensures AllReadOneWay(columns) <==> AllEnclosed(columns)
  {
    if AllEnclosed(columns) {
      forall e: Node | Knows(columns, e) ensures OneReading(e, columns) { ExpandedReadsOneWay(e, columns); }
    } else {
      var field :| field in columns && columns[field].Binary?;
      assert Composed(columns[field]);
      OpenColumnRegroups(field, columns);
    }
  }

  // ----- what the columns mean -----

  predicate NoParameters(t: SqlExpr) {
    match t
    case Atom(x) => !x.Mark?
    case Paren(a) => NoParameters(a)
    case Binary(_, l, r) => NoParameters(l) && NoParameters(r)
    case Lower(a) => NoParameters(a)
    case Cast(_, a) => NoParameters(a)
    case Call(_, a, b) => NoParameters(a) && NoParameters(b)
  }

  lemma {:induction false} TakesNone(t: SqlExpr, base: Row, params: seq<string>, h: Host)
    requires NoParameters(t)
    ensures Eval(t, base, params, h) == (Eval(t, base, [], h).0, params)
  {
    match t
    case Atom(_) =>
    case Paren(a) => TakesNone(a, base, params, h);
    case Binary(_, l, r) =>
      TakesNone(l, base, params, h);
      TakesNone(l, base, [], h);
      TakesNone(r, base, params, h);
      TakesNone(r, base, [], h);
    case Lower(a) => TakesNone(a, base, params, h);
    case Cast(_, a) => TakesNone(a, base, params, h);
    case Call(_, l, r) =>
      TakesNone(l, base, params, h);
      TakesNone(l, base, [], h);
      TakesNone(r, base, params, h);
      TakesNone(r, base, [], h);
  }

  ghost predicate AllParameterless(columns: Columns) {
    forall field :: field in columns ==> NoParameters(columns[field])
  }

  /** The value each field has in a row of the base tables. */
  function FieldValues(columns: Columns, base: Row, h: Host): Row {
    map field | field in columns :: Eval(columns[field], base, [], h).0
  }

  /** The expression names fields only. */
  predicate Over(t: SqlExpr, columns: Columns) {
    match t
    case Atom(x) => x.Column? ==> x.column in columns
    case Paren(a) => Over(a, columns)
    case Binary(_, l, r) => Over(l, columns) && Over(r, columns)
    case Lower(a) => Over(a, columns)
    case Cast(_, a) => Over(a, columns)
    case Call(_, a, b) => Over(a, columns) && Over(b, columns)
  }

  lemma {:induction false} SubstituteEvaluates(t: SqlExpr, columns: Columns, base: Row, params: seq<string>, h: Host)
    requires AllParameterless(columns) && Over(t, columns)
    ensures Eval(Substitute(t, columns), base, params, h) == Eval(t, FieldValues(columns, base, h), params, h)
  {
    match t
    case Atom(x) => if x.Column? { TakesNone(columns[x.column], base, params, h); }
    case Paren(a) => SubstituteEvaluates(a, columns, base, params, h);
    case Binary(_, l, r) =>
      SubstituteEvaluates(l, columns, base, params, h);
      SubstituteEvaluates(r, columns, base, Eval(Substitute(l, columns), base, params, h).1, h);
    case Lower(a) => SubstituteEvaluates(a, columns, base, params, h);
    case Cast(_, a) => SubstituteEvaluates(a, columns, base, params, h);
    case Call(_, l, r) =>
      SubstituteEvaluates(l, columns, base, params, h);
      SubstituteEvaluates(r, columns, base, Eval(Substitute(l, columns), base, params, h).1, h);
  }

  lemma {:induction false} CompiledOver(e: Node, columns: Columns)
    requires Knows(columns, e)
    ensures Over(Compiled(e, OwnNames(columns)), columns)
  {
    if e.BinOp? {
      CompiledOver(e.left, columns);
      CompiledOver(e.right, columns);
      var a, b := Compiled(e.left, OwnNames(columns)), Compiled(e.right, OwnNames(columns));
      assert Over(Lower(Cast(AsText, a)), columns) && Over(Lower(b), columns);
    }
  }

  /** Whether the WHERE clause, its columns written out, selects a row of the base tables. */
  predicate SelectsBase(e: Node, base: Row, columns: Columns, h: Host)
    requires Knows(columns, e)
  {
    Truth(Eval(Expanded(e, columns), base, Strings(e), h).0, h) == Some(true)
  }

  /** Record and base tables agree on a field when its expression gives the record's value. */
  ghost predicate SameFields(fields: set<string>, env: Record, base: Row, columns: Columns, h: Host) {
    forall field :: field in fields && field in env && field in columns ==>
      Eval(columns[field], base, [], h).0 == Stored(env[field])
  }

  /** The in-memory filter and the emitted SQL over the base tables: they agree where the filter's fields do. */
  lemma KeepsIffSelectsBase(e: Node, env: Record, base: Row, columns: Columns, h: Host)
    requires Faithful(h) && Knows(columns, e) && AllParameterless(columns) && Portable(e, env, h) && IsCondition(e, env)
    requires SameFields(FieldsRead(e, env, h), env, base, columns, h)
    ensures Keeps(e, env, h) <==> Runs(e, env, h) && SelectsBase(e, base, columns, h)
  {
    var names, row := OwnNames(columns), FieldValues(columns, base, h);
    CompiledOver(e, columns);
    SubstituteEvaluates(Compiled(e, names), columns, base, Strings(e), h);
    assert SameData(FieldsRead(e, env, h), env, row, names);
    KeepsIffSelects(e, env, row, names, h);
  }

  // ----- the name map -----

  function Col(name: string): SqlExpr {
    Atom(Column(name))
  }

  function Figure(n: int): SqlExpr {
    Atom(NumberText(Whole(n)))
  }

  const START: string := "rtpmon_statistics.start_timestamp"
  const END: string := "rtpmon_statistics.end_timestamp"
  const DTX_SID: string := "rtpmon_statistics.dtx_sid"
  const DTX_COUNT: string := "rtpmon_statistics.dtx_count"
  const DTX_TOTAL: string := "rtpmon_statistics.dtx_total"

  const START_SECONDS: SqlExpr := Paren(Binary(Div, Col(START), Figure(1000)))
  const DURATION: SqlExpr := Paren(Binary(Sub, Col(END), Col(START)))
  const DTX_PACKETS: SqlExpr :=
    Binary(Add, Call(CoalesceFn, Col(DTX_SID), Figure(0)), Call(CoalesceFn, Col(DTX_COUNT), Figure(0)))
  const SILENCE_RATIO: SqlExpr :=
    Paren(Binary(Div, Cast(AsReal, DTX_PACKETS), Call(NullIfFn, Col(DTX_TOTAL), Figure(0))))

  predicate Maps(columns: Columns, field: string, t: SqlExpr) {
    field in columns && columns[field] == t
  }

  /** The map of filter fields: three expressions in brackets, otherwise plain columns. */
  const NAME_MAP: Columns := map[
    "start_time" := START_SECONDS, "duration" := DURATION, "silence_ratio" := SILENCE_RATIO,
    "duration_audio" := Col("rtpmon_statistics.duration_audio"),
    "sevana_mos" := Col("rtpmon_statistics.sevana_mos"), "network_mos" := Col("rtpmon_statistics.network_mos"),
    "sevana_rfactor" := Col("rtpmon_statistics.sevana_rfactor"), "jitter" := Col("rtpmon_statistics.jitter"),
    "rtt_delay" := Col("rtpmon_statistics.rtt_delay"), "src_ip" := Col("rtpmon_streams.src_ip"),
    "src_port" := Col("rtpmon_streams.src_port"), "dst_ip" := Col("rtpmon_streams.dst_ip"),
    "dst_port" := Col("rtpmon_streams.dst_port"), "ssrc" := Col("rtpmon_streams.ssrc"),
    "sip_source" := Col("rtpmon_streams.sip_source"), "sip_src" := Col("rtpmon_streams.sip_source"),
    "sip_destination" := Col("rtpmon_streams.sip_destination"), "sip_dst" := Col("rtpmon_streams.sip_destination"),
    "sip_callid" := Col("rtpmon_streams.sip_callid"), "instance_id" := Col("rtpmon_instances.agent_id"),
    "instance_name" := Col("rtpmon_instances.agent_name")]

  predicate MapsTimes(columns: Columns) {
    && Maps(columns, "start_time", START_SECONDS)
    && Maps(columns, "duration", DURATION)
    && Maps(columns, "silence_ratio", SILENCE_RATIO)
    && Maps(columns, "duration_audio", Col("rtpmon_statistics.duration_audio"))
  }

  predicate MapsFigures(columns: Columns) {
    && Maps(columns, "sevana_mos", Col("rtpmon_statistics.sevana_mos"))
    && Maps(columns, "network_mos", Col("rtpmon_statistics.network_mos"))
    && Maps(columns, "sevana_rfactor", Col("rtpmon_statistics.sevana_rfactor"))
    && Maps(columns, "jitter", Col("rtpmon_statistics.jitter"))
    && Maps(columns, "rtt_delay", Col("rtpmon_statistics.rtt_delay"))
  }

  predicate MapsAddresses(columns: Columns) {
    && Maps(columns, "src_ip", Col("rtpmon_streams.src_ip"))
    && Maps(columns, "src_port", Col("rtpmon_streams.src_port"))
    && Maps(columns, "dst_ip", Col("rtpmon_streams.dst_ip"))
    && Maps(columns, "dst_port", Col("rtpmon_streams.dst_port"))
    && Maps(columns, "ssrc", Col("rtpmon_streams.ssrc"))
  }

  predicate MapsCalls(columns: Columns) {
    && Maps(columns, "sip_source", Col("rtpmon_streams.sip_source"))
    && Maps(columns, "sip_src", Col("rtpmon_streams.sip_source"))
    && Maps(columns, "sip_destination", Col("rtpmon_streams.sip_destination"))
    && Maps(columns, "sip_dst", Col("rtpmon_streams.sip_destination"))
    && Maps(columns, "sip_callid", Col("rtpmon_streams.sip_callid"))
    && Maps(columns, "instance_id", Col("rtpmon_instances.agent_id"))
    && Maps(columns, "instance_name", Col("rtpmon_instances.agent_name"))
  }

  /** What the map gives for each field. */
  ghost predicate IsNameMap(columns: Columns) {
    && MapsTimes(columns) && MapsFigures(columns) && MapsAddresses(columns) && MapsCalls(columns)
    && forall field :: field in columns ==> IsColumn(columns[field])
  }

  lemma NameMapsTimes()
    ensures MapsTimes(NAME_MAP)
  {
  }

  lemma NameMapsFigures()
    ensures MapsFigures(NAME_MAP)
  {
  }

  lemma NameMapsAddresses()
    ensures MapsAddresses(NAME_MAP)
  {
  }

  lemma NameMapsCalls()
    ensures MapsCalls(NAME_MAP)
  {
  }

  lemma NameMapIs()
    ensures IsNameMap(NAME_MAP)
  {
    NameMapsTimes();
    NameMapsFigures();
    NameMapsAddresses();
    NameMapsCalls();
    forall field | field in NAME_MAP ensures IsColumn(NAME_MAP[field]) {}
  }

  /** A column expression evaluated over a row. */
  function ValueOf(t: SqlExpr, base: Row, h: Host): (SqlValue, seq<string>) {
    Eval(t, base, [], h)
  }

  lemma ColIs(column: string, base: Row, v: SqlValue, h: Host)
    requires column in base && base[column] == v
    ensures ValueOf(Col(column), base, h) == (v, [])
  {
  }

  lemma BinaryIs(op: Op, l: SqlExpr, r: SqlExpr, base: Row, a: SqlValue, b: SqlValue, h: Host)
    requires ValueOf(l, base, h) == (a, []) && ValueOf(r, base, h) == (b, [])
    ensures ValueOf(Binary(op, l, r), base, h) == (SqlOperator(op, a, b, h), [])
    ensures ValueOf(Paren(Binary(op, l, r)), base, h) == (SqlOperator(op, a, b, h), [])
  {
  }

  lemma CallIs(fn: Fn, column: string, base: Row, v: SqlValue, h: Host)
    requires column in base && base[column] == v
    ensures ValueOf(Call(fn, Col(column), Figure(0)), base, h) == (Apply(fn, v, SqlInt(0), h), [])
  {
    ColIs(column, base, v, h);
    assert ValueOf(Figure(0), base, h) == (SqlInt(0), []);
  }

  lemma QuotientFits(n: int)
    requires IsInt64(n)
    ensures IsInt64(TruncDiv(n, 1000))
  {
  }

  lemma StartSecondsIs(base: Row, start: int, h: Host)
    requires START in base && base[START] == SqlInt(start) && IsInt64(start)
    ensures ValueOf(START_SECONDS, base, h).0 == SqlInt(TruncDiv(start, 1000))
  {
    ColIs(START, base, SqlInt(start), h);
    assert ValueOf(Figure(1000), base, h) == (SqlInt(1000), []);
    BinaryIs(Div, Col(START), Figure(1000), base, SqlInt(start), SqlInt(1000), h);
    QuotientFits(start);
  }

  lemma DurationIs(base: Row, start: int, end: int, h: Host)
    requires START in base && base[START] == SqlInt(start) && END in base && base[END] == SqlInt(end)
    requires IsInt64(end - start)
    ensures ValueOf(DURATION, base, h).0 == SqlInt(end - start)
  {
    ColIs(START, base, SqlInt(start), h);
    ColIs(END, base, SqlInt(end), h);
    BinaryIs(Sub, Col(END), Col(START), base, SqlInt(end), SqlInt(start), h);
  }

  lemma PacketsAre(base: Row, sid: int, count: int, h: Host)
    requires DTX_SID in base && base[DTX_SID] == SqlInt(sid) && DTX_COUNT in base && base[DTX_COUNT] == SqlInt(count)
    requires IsInt64(sid + count)
    ensures ValueOf(Cast(AsReal, DTX_PACKETS), base, h) == (SqlReal(h.round((sid + count) as real)), [])
  {
    CallIs(CoalesceFn, DTX_SID, base, SqlInt(sid), h);
    CallIs(CoalesceFn, DTX_COUNT, base, SqlInt(count), h);
    BinaryIs(Add, Call(CoalesceFn, Col(DTX_SID), Figure(0)), Call(CoalesceFn, Col(DTX_COUNT), Figure(0)), base,
             SqlInt(sid), SqlInt(count), h);
    assert ValueOf(DTX_PACKETS, base, h) == (SqlInt(sid + count), []);
  }

  /** The share of silence in SQL: NULL as long as no packet interval was counted. */
  lemma SilenceRatioIs(base: Row, sid: int, count: int, total: int, h: Host)
    requires DTX_SID in base && base[DTX_SID] == SqlInt(sid) && DTX_COUNT in base && base[DTX_COUNT] == SqlInt(count)
    requires DTX_TOTAL in base && base[DTX_TOTAL] == SqlInt(total) && IsInt64(sid + count)
    ensures ValueOf(SILENCE_RATIO, base, h).0
            == SqlArith(Div, SqlReal(h.round((sid + count) as real)), if total == 0 then Null else SqlInt(total), h)
  {
    PacketsAre(base, sid, count, h);
    CallIs(NullIfFn, DTX_TOTAL, base, SqlInt(total), h);
    BinaryIs(Div, Cast(AsReal, DTX_PACKETS), Call(NullIfFn, Col(DTX_TOTAL), Figure(0)), base,
             SqlReal(h.round((sid + count) as real)), if total == 0 then Null else SqlInt(total), h);
  }

  predicate IsColumn(t: SqlExpr) {
    (t.Atom? && t.leaf.Column?) || t == START_SECONDS || t == DURATION || t == SILENCE_RATIO
  }

  lemma ColumnsCompose(t: SqlExpr)
    requires IsColumn(t)
    ensures Composed(t) && !t.Binary? && NoParameters(t)
  {
    if t == SILENCE_RATIO { SilenceComposes(); } else if !t.Atom? { TimesCompose(); }
  }

  lemma SilenceComposes()
    ensures Composed(SILENCE_RATIO) && !SILENCE_RATIO.Binary? && NoParameters(SILENCE_RATIO)
  {
    assert Cast(AsReal, DTX_PACKETS).Valid() && FullyBracketed(Cast(AsReal, DTX_PACKETS));
    assert NoParameters(Cast(AsReal, DTX_PACKETS));
  }

  lemma TimesCompose()
    ensures Composed(START_SECONDS) && !START_SECONDS.Binary? && NoParameters(START_SECONDS)
    ensures Composed(DURATION) && !DURATION.Binary? && NoParameters(DURATION)
  {
  }

  /** With the daemon's name map no filter can be regrouped. */
  lemma NameMapReadsOneWay(columns: Columns)
    requires IsNameMap(columns)
    ensures AllReadOneWay(columns) && AllParameterless(columns)
  {
    forall field | field in columns
      ensures Composed(columns[field]) && !columns[field].Binary? && NoParameters(columns[field])
    {
      ColumnsCompose(columns[field]);
    }
    OneReadingExact(columns);
  }
}

/**
 Reading the emitted text as SQL: what its operators, keywords, numbers and columns are to SQLite, stated without the
 emitter, and what the meaning theorem then says of the text itself.
*/
module FilterSqlReading {
  import opened Lists
  import opened Results
  import opened Texts
  import opened FilterLexer
  import opened FilterLexicon
  import opened FilterParser
  import opened FilterEvaluate
  import opened FilterSql
  import opened FilterSqlText
  import opened FilterMeaning
  import opened FilterColumns

  /** The operators of SQL. */
  function OperatorOf(s: string): Option<Op> {
    if s == "=" then Some(Eq)
    else if s == "<>" then Some(Ne)
    else if s == "<" then Some(Lt)
    else if s == "<=" then Some(Le)
    else if s == ">" then Some(Gt)
    else if s == ">=" then Some(Ge)
    else if s == "+" then Some(Add)
    else if s == "-" then Some(Sub)
    else if s == "*" then Some(Mul)
    else if s == "/" then Some(Div)
    else if s == "AND" then Some(And)
    else if s == "OR" then Some(Or)
    else None
  }

  /** The keywords and functions of SQL that a fragment may hold. */
  function KeywordOf(s: string): Option<Keyword> {
    if s == "lower" then Some(LowerKw)
    else if s == "CAST" then Some(CastKw)
    else if s == "AS" then Some(AsKw)
    else if s == "TEXT" then Some(TypeKw(AsText))
    else if s == "REAL" then Some(TypeKw(AsReal))
    else if s == "instr" then Some(FnKw(InstrFn))
    else if s == "COALESCE" then Some(FnKw(CoalesceFn))
    else if s == "NULLIF" then Some(FnKw(NullIfFn))
    else None
  }

  /** Signs, which stand for themselves. */
  function SignOf(s: string): Option<Lexeme> {
    if s == "(" then Some(Open)
    else if s == ")" then Some(Close)
    else if s == "," then Some(Comma)
    else if s == "?" then Some(Mark)
    else None
  }

  /** A numeric literal: digits are a whole number, anything else that starts with one is `real`'s. */
  function NumberOf(s: string, reals: string -> real): Option<Num> {
    if s == "" || !IsDigit(s[0]) then None
    else if forall k :: 0 <= k < |s| ==> IsDigit(s[k]) then Some(Whole(Numeral(s, 10)))
    else Some(Decimal(reals(s)))
  }

  /** One piece of SQL text; spaces are nothing, and what is no sign, operator, keyword or number names a column. */
  function ReadPiece(s: string, reals: string -> real): seq<Lexeme> {
    if s == " " then []
    else if SignOf(s).Some? then [SignOf(s).value]
    else if OperatorOf(s).Some? then [Infix(OperatorOf(s).value)]
    else if KeywordOf(s).Some? then [Word(KeywordOf(s).value)]
    else if NumberOf(s, reals).Some? then [NumberText(NumberOf(s, reals).value)]
    else [Column(s)]
  }

  function ReadPieces(ps: seq<string>, reals: string -> real): seq<Lexeme> {
    if ps == [] then [] else ReadPiece(ps[0], reals) + ReadPieces(ps[1..], reals)
  }

  /** SQL text as lexemes: split at spaces, brackets and commas, then piece by piece. */
  function Read(s: string, reals: string -> real): seq<Lexeme> {
    ReadPieces(Pieces(s), reals)
  }

  // ----- reading what was rendered -----

  lemma {:induction false} ReadConcat(ps: seq<string>, qs: seq<string>, reals: string -> real)
    ensures ReadPieces(ps + qs, reals) == ReadPieces(ps, reals) + ReadPieces(qs, reals)
  {
    if ps == [] {
      ConcatNothing(qs);
      ConcatNothing(ReadPieces(qs, reals));
    } else {
      ReadConcat(ps[1..], qs, reals);
      FirstOfConcat(ps, qs);
      Associative(ReadPiece(ps[0], reals), ReadPieces(ps[1..], reals), ReadPieces(qs, reals));
    }
  }

  function Reader(reals: string -> real): string -> seq<Lexeme> {
    s => Read(s, reals)
  }

  lemma ReadingSplits(reals: string -> real)
    ensures SplitsAtDelimiters(Reader(reals))
  {
    var read := Reader(reals);
    assert read("") == [];
    PiecesSplit();
    forall x, y | Plain(x) && Plain(y) && Seam(x, y) ensures Splits(read, x, y) {
      assert Splits(Pieces, x, y);
      ReadConcat(Pieces(x), Pieces(y), reals);
    }
  }

  lemma ReadOnePiece(s: string, reals: string -> real)
    requires s != "" && (|s| == 1 || forall k :: 0 <= k < |s| ==> !IsDelimiter(s[k]))
    ensures Read(s, reals) == ReadPiece(s, reals)
  {
    if !IsDelimiter(s[0]) { RunOfIs(s, |s|); }
    assert s[|s|..] == "" && s[..|s|] == s;
    assert Pieces(s) == [s] + Pieces("") == [s];
    assert [s][1..] == [];
    assert ReadPieces([s], reals) == ReadPiece(s, reals) + ReadPieces([], reals);
    ConcatNothing(ReadPiece(s, reals));
  }

  lemma ReadSpaced(s: string, reals: string -> real)
    requires s != "" && (forall k :: 0 <= k < |s| ==> !IsDelimiter(s[k])) && Plain(s)
    ensures Read(" " + s + " ", reals) == ReadPiece(s, reals)
  {
    ReadingSplits(reals);
    var read := Reader(reals);
    PlainShort(" ");
    PlainJoin(" ", s);
    assert Splits(read, " ", s) && Splits(read, " " + s, " ");
    ReadOnePiece(" ", reals);
    ReadOnePiece(s, reals);
    ConcatNothing(ReadPiece(s, reals));
  }

  /** The operators as they are emitted are read as themselves. */
  lemma OperatorsRead(op: Op, h: Host, reals: string -> real)
    requires op != Like
    ensures Read(LexemeText(Infix(op), h), reals) == [Infix(op)]
  {
    OperatorIsPlain(op);
    ReadSpaced(SqlOpText(op), reals);
    OperatorTexts(op, reals);
  }

  lemma OperatorIsPlain(op: Op)
    requires op != Like
    ensures var s := SqlOpText(op); s != "" && Plain(s) && forall k :: 0 <= k < |s| ==> !IsDelimiter(s[k])
  {
  }

  lemma OperatorTexts(op: Op, reals: string -> real)
    requires op != Like
    ensures ReadPiece(SqlOpText(op), reals) == [Infix(op)]
  {
  }

  ghost predicate Reads(x: Lexeme, h: Host, reals: string -> real) {
    PlainLexeme(x, h) && Read(LexemeText(x, h), reals) == [x]
  }

  /** And so are the keywords and signs. */
  lemma WordsRead(k: Keyword, h: Host, reals: string -> real)
    ensures Reads(Word(k), h, reals)
  {
    PlainSign(Word(k), h);
    if k.AsKw? {
      assert KeywordText(k) == " " + "AS" + " ";
      assert Plain("AS");
      ReadSpaced("AS", reals);
    } else {
      WordTexts(k, reals);
      ReadOnePiece(KeywordText(k), reals);
    }
  }

  lemma WordTexts(k: Keyword, reals: string -> real)
    requires !k.AsKw?
    ensures var s := KeywordText(k);
            && s != "" && (forall i :: 0 <= i < |s| ==> !IsDelimiter(s[i])) && ReadPiece(s, reals) == [Word(k)]
  {
  }

  /** A sign of one character that is no space is read as what it stands for. */
  lemma SignReads(x: Lexeme, h: Host, reals: string -> real)
    requires x.Open? || x.Close? || x.Mark?
    ensures Reads(x, h, reals)
  {
    PlainSign(x, h);
    ReadOnePiece(LexemeText(x, h), reals);
  }

  lemma CommaReads(h: Host, reals: string -> real)
    ensures Reads(Comma, h, reals)
  {
    PlainSign(Comma, h);
    ReadingSplits(reals);
    PlainShort(",");
    PlainShort(" ");
    assert Splits(Reader(reals), ",", " ") && "," + " " == ", ";
    ReadOnePiece(",", reals);
    ReadOnePiece(" ", reals);
  }

  lemma SignsRead(h: Host, reals: string -> real)
    ensures Reads(Open, h, reals) && Reads(Close, h, reals) && Reads(Comma, h, reals) && Reads(Mark, h, reals)
  {
    SignReads(Open, h, reals);
    SignReads(Close, h, reals);
    SignReads(Mark, h, reals);
    CommaReads(h, reals);
  }

  /** A qualified column name: letters, digits, dots and underscores, a dot among them, a letter first. */
  predicate IsColumnName(s: string) {
    s != "" && IsIdentStart(s[0]) && '.' in s && forall k :: 0 <= k < |s| ==> IsIdentBody(s[k])
  }

  lemma ColumnsRead(s: string, h: Host, reals: string -> real)
    requires IsColumnName(s)
    ensures Reads(Column(s), h, reals)
  {
    assert Plain(s);
    ReadOnePiece(s, reals);
    NamesAreColumns(s, reals);
  }

  lemma NamesAreColumns(s: string, reals: string -> real)
    requires IsColumnName(s)
    ensures ReadPiece(s, reals) == [Column(s)]
  {
  }

  /** The host writes a float as SQL reads it back. */
  ghost predicate ReadsReal(r: real, h: Host, reals: string -> real) {
    var s := h.repr(r);
    && s != "" && IsDigit(s[0]) && Plain(s) && (forall k :: 0 <= k < |s| ==> !IsDelimiter(s[k]))
    && (exists k :: 0 <= k < |s| && !IsDigit(s[k])) && reals(s) == r
  }

  ghost predicate ReadableNumber(num: Num, h: Host, reals: string -> real) {
    if num.Whole? then num.n >= 0 else ReadsReal(num.r, h, reals)
  }

  lemma DigitsRead(s: string, h: Host, reals: string -> real)
    requires s != "" && forall k :: 0 <= k < |s| ==> IsDigit(s[k])
    ensures Plain(s) && Read(s, reals) == [NumberText(NumberOf(s, reals).value)]
  {
    DigitsArePlain(s);
    ReadOnePiece(s, reals);
    NumeralsAreNumbers(s, reals);
  }

  lemma WholesRead(n: nat, h: Host, reals: string -> real)
    ensures Reads(NumberText(Whole(n)), h, reals)
  {
    var s := LexemeText(NumberText(Whole(n)), h);
    assert s == DigitText(n);
    DigitTextNumeral(n);
    AllDigits(s);
    DigitsRead(s, h, reals);
  }

  lemma AllDigits(s: string)
    requires All(s, IsDigit)
    ensures forall k :: 0 <= k < |s| ==> IsDigit(s[k])
  {
  }

  lemma DigitsArePlain(s: string)
    requires forall k :: 0 <= k < |s| ==> IsDigit(s[k])
    ensures Plain(s) && forall k :: 0 <= k < |s| ==> !IsDelimiter(s[k])
  {
  }

  lemma RealsRead(r: real, h: Host, reals: string -> real)
    requires ReadsReal(r, h, reals)
    ensures Reads(NumberText(Decimal(r)), h, reals)
  {
    ReadOnePiece(h.repr(r), reals);
    NumeralsAreNumbers(h.repr(r), reals);
  }

  lemma NumeralsAreNumbers(s: string, reals: string -> real)
    requires s != "" && IsDigit(s[0])
    ensures ReadPiece(s, reals) == [NumberText(NumberOf(s, reals).value)]
  {
  }

  // ----- reading an expression -----

  /** Its columns are qualified names, its numbers readable, and it has no operator SQL does not know. */
  ghost predicate Readable(t: SqlExpr, h: Host, reals: string -> real) {
    match t
    case Atom(x) =>
      x.Mark? || (x.Column? && IsColumnName(x.column)) || (x.NumberText? && ReadableNumber(x.num, h, reals))
    case Paren(a) => Readable(a, h, reals)
    case Binary(op, l, r) => op != Like && Readable(l, h, reals) && Readable(r, h, reals)
    case Lower(a) => Readable(a, h, reals)
    case Cast(_, a) => Readable(a, h, reals)
    case Call(_, a, b) => Readable(a, h, reals) && Readable(b, h, reals)
  }

  ghost predicate AllRead(xs: seq<Lexeme>, h: Host, reals: string -> real) {
    forall x :: x in xs ==> Reads(x, h, reals)
  }

  lemma {:induction false} ReadableLexemes(t: SqlExpr, h: Host, reals: string -> real)
    requires Readable(t, h, reals)
    ensures AllRead(t.Lexemes(), h, reals)
  {
    SignsRead(h, reals);
    match t
    case Atom(x) =>
      if x.Column? { ColumnsRead(x.column, h, reals); }
      if x.NumberText? && x.num.Whole? { WholesRead(x.num.n, h, reals); }
      if x.NumberText? && x.num.Decimal? { RealsRead(x.num.r, h, reals); }
    case Paren(a) => ReadableLexemes(a, h, reals);
    case Binary(op, l, r) =>
      ReadableLexemes(l, h, reals);
      ReadableLexemes(r, h, reals);
      PlainOperator(op, h);
      OperatorsRead(op, h, reals);
    case Lower(a) =>
      ReadableLexemes(a, h, reals);
      WordsRead(LowerKw, h, reals);
    case Cast(ty, a) =>
      ReadableLexemes(a, h, reals);
      WordsRead(CastKw, h, reals);
      WordsRead(AsKw, h, reals);
      WordsRead(TypeKw(ty), h, reals);
    case Call(fn, a, b) =>
      ReadableLexemes(a, h, reals);
      ReadableLexemes(b, h, reals);
      WordsRead(FnKw(fn), h, reals);
  }

  lemma AllReadParts(xs: seq<Lexeme>, h: Host, reals: string -> real)
    requires xs != [] && AllRead(xs, h, reals)
    ensures Reader(reals)(LexemeText(xs[0], h)) == [xs[0]] && AllRead(xs[1..], h, reals)
  {
    assert xs[0] in xs && Reads(xs[0], h, reals);
    forall x | x in xs[1..] ensures x in xs {}
  }

  lemma {:induction false} TokensAreLexemes(xs: seq<Lexeme>, h: Host, reals: string -> real)
    requires AllRead(xs, h, reals)
    ensures TokensOf(Reader(reals), xs, h) == xs
  {
    if xs != [] {
      var x, rest := xs[0], xs[1..];
      AllReadParts(xs, h, reals);
      TokensAreLexemes(rest, h, reals);
      assert TokensOf(Reader(reals), xs, h) == Reader(reals)(LexemeText(x, h)) + rest;
      assert xs == [x] + rest;
    }
  }

  /** The text of a readable expression is read as its own lexemes. */
  lemma RenderedReads(t: SqlExpr, h: Host, reals: string -> real)
    requires Readable(t, h, reals)
    ensures Read(Render(t.Lexemes(), h), reals) == t.Lexemes()
  {
    ReadableLexemes(t, h, reals);
    ReadingSplits(reals);
    ExpressionsAreSpaced(t);
    forall x | x in t.Lexemes() ensures PlainLexeme(x, h) { assert Reads(x, h, reals); }
    RenderSplits(Reader(reals), t.Lexemes(), h);
    TokensAreLexemes(t.Lexemes(), h, reals);
  }

  // ----- the emitted text -----

  /** The numbers of a filter can be written and read back; those of a parsed filter are not negative. */
  ghost predicate ReadableTree(e: Node, h: Host, reals: string -> real) {
    match e
    case Constant(num) => ReadableNumber(num, h, reals)
    case Literal(_) => true
    case Var(_) => true
    case BinOp(_, l, r) => ReadableTree(l, h, reals) && ReadableTree(r, h, reals)
  }

  ghost predicate AllReadable(columns: Columns, h: Host, reals: string -> real) {
    forall field :: field in columns ==> Readable(columns[field], h, reals)
  }

  lemma {:induction false} ExpandedReadable(e: Node, columns: Columns, h: Host, reals: string -> real)
    requires Knows(columns, e) && ReadableTree(e, h, reals) && AllReadable(columns, h, reals)
    ensures Readable(Expanded(e, columns), h, reals)
  {
    if e.BinOp? {
      ExpandedReadable(e.left, columns, h, reals);
      ExpandedReadable(e.right, columns, h, reals);
      ExpandedOperator(e.op, e.left, e.right, columns);
      OperatorReadable(e.op, Expanded(e.left, columns), Expanded(e.right, columns), h, reals);
    } else {
      ExpandedLeaf(e, columns);
    }
  }

  lemma OperatorReadable(op: Op, a: SqlExpr, b: SqlExpr, h: Host, reals: string -> real)
    requires Readable(a, h, reals) && Readable(b, h, reals)
    ensures op != Like ==> Readable(Paren(Binary(op, a, b)), h, reals)
    ensures Readable(Paren(Binary(Gt, Call(InstrFn, Lower(Cast(AsText, a)), Lower(b)), Atom(NumberText(Whole(0))))),
                     h, reals)
  {
    assert Readable(Lower(Cast(AsText, a)), h, reals) && Readable(Lower(b), h, reals);
    assert Readable(Call(InstrFn, Lower(Cast(AsText, a)), Lower(b)), h, reals);
    assert Readable(Atom(NumberText(Whole(0))), h, reals);
  }

  /** The emitted text, read as SQL, has the lexemes of the filter's SQL expression. */
  lemma TextReads(e: Node, columns: Columns, h: Host, reals: string -> real)
    requires Knows(columns, e) && ReadableTree(e, h, reals) && AllReadable(columns, h, reals)
    ensures ToSql(e, TextsOf(columns, h), h).Ok?
    ensures Read(ToSql(e, TextsOf(columns, h), h).value.text, reals) == Expanded(e, columns).Lexemes()
  {
    EmitsExpanded(e, columns, h);
    ExpandedReadable(e, columns, h, reals);
    RenderedReads(Expanded(e, columns), h, reals);
  }

  /** u is an expression that SQLite, with whatever precedence, may take the fragment for. */
  ghost predicate TakenFor(fragment: Fragment, u: SqlExpr, reals: string -> real) {
    u.Valid() && u.Lexemes() == Read(fragment.text, reals)
  }

  /**
   The meaning theorem for the text: whatever expression SQLite takes the emitted fragment for, with the emitted
   parameters it selects the row of a record exactly when the in-memory filter keeps the record, guards aside.
  */
  lemma KeepsIffTextSelects(
    e: Node, env: Record, base: Row, columns: Columns, u: SqlExpr, h: Host, reals: string -> real)
    requires Faithful(h) && Knows(columns, e) && Portable(e, env, h) && IsCondition(e, env)
    requires AllComposed(columns) && AllEnclosed(columns) && AllParameterless(columns)
    requires ReadableTree(e, h, reals) && AllReadable(columns, h, reals)
    requires SameFields(FieldsRead(e, env, h), env, base, columns, h)
    requires ToSql(e, TextsOf(columns, h), h).Ok? && TakenFor(ToSql(e, TextsOf(columns, h), h).value, u, reals)
    ensures Keeps(e, env, h) <==>
              Runs(e, env, h)
              && Truth(Eval(u, base, ToSql(e, TextsOf(columns, h), h).value.params, h).0, h) == Some(true)
  {
    TextReads(e, columns, h, reals);
    EmitsExpanded(e, columns, h);
    ExpandedReadsOneWay(e, columns);
    assert u == Expanded(e, columns);
    KeepsIffSelectsBase(e, env, base, columns, h);
  }
}

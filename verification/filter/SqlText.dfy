/** How the emitted text splits: a tokenizer that splits at spaces, brackets and commas reads lexeme by lexeme. */
module FilterSqlText {
  import opened Lists
  import opened Texts
  import opened FilterLexer
  import opened FilterParser
  import opened FilterEvaluate
  import opened FilterSql

  predicate IsDelimiter(c: char) {
    c == ' ' || c == '(' || c == ')' || c == ','
  }

  predicate IsQuote(c: char) {
    c == '\'' || c == '"' || c == '`' || c == '[' || c == ';'
  }

  /** Two characters that open a comment. */
  predicate OpensComment(a: char, b: char) {
    (a == '-' && b == '-') || (a == '/' && b == '*')
  }

  /** Nothing in the text starts a string, a quoted name or a comment. */
  ghost predicate Plain(s: string) {
    && (forall k :: 0 <= k < |s| ==> !IsQuote(s[k]))
    && forall k {:trigger s[k]} :: 0 <= k < |s| - 1 ==> !OpensComment(s[k], s[k + 1])
  }

  predicate Starts(s: string) {
    s != "" && IsDelimiter(s[0])
  }

  predicate Ends(s: string) {
    s != "" && IsDelimiter(s[|s| - 1])
  }

  /** A delimiter stands at the seam of two texts. */
  predicate Seam(x: string, y: string) {
    Ends(x) || Starts(y)
  }

  /** The tokenizer never joins what a delimiter separates, outside strings, quoted names and comments. */
  ghost predicate SplitsAtDelimiters<T(!new)>(tokens: string -> seq<T>) {
    tokens("") == [] && forall x, y :: Plain(x) && Plain(y) && Seam(x, y) ==> Splits(tokens, x, y)
  }

  predicate Splits<T(==)>(tokens: string -> seq<T>, x: string, y: string) {
    tokens(x + y) == tokens(x) + tokens(y)
  }

  lemma PlainJoin(x: string, y: string)
    requires Plain(x) && Plain(y) && Seam(x, y)
    ensures Plain(x + y)
  {
    var s := x + y;
    forall k | 0 <= k < |s| - 1 ensures !OpensComment(s[k], s[k + 1]) {
      if k + 1 < |x| { assert s[k] == x[k]; } else if k >= |x| { assert s[k] == y[k - |x|]; }
    }
  }

  /** A lexeme whose text has delimiters at both ends. */
  predicate Bordered(x: Lexeme) {
    x.Open? || x.Close? || x.Comma? || x.Infix? || x == Word(AsKw)
  }

  /** Of two neighbours one is bordered. */
  ghost predicate Spaced(xs: seq<Lexeme>) {
    forall k {:trigger xs[k]} :: 0 <= k < |xs| - 1 ==> Bordered(xs[k]) || Bordered(xs[k + 1])
  }

  lemma BorderedEnds(x: Lexeme, h: Host)
    requires Bordered(x)
    ensures Starts(LexemeText(x, h)) && Ends(LexemeText(x, h))
  {
  }

  lemma SpacedAround(a: seq<Lexeme>, x: Lexeme, b: seq<Lexeme>)
    requires Spaced(a) && Spaced(b) && Bordered(x)
    ensures Spaced(a + [x] + b)
  {
    var s := a + [x] + b;
    forall k | 0 <= k < |s| - 1 ensures Bordered(s[k]) || Bordered(s[k + 1]) {
      if k + 1 < |a| { assert s[k] == a[k]; } else if k > |a| { assert s[k] == b[k - |a| - 1]; }
    }
  }

  lemma SpacedCall(word: Lexeme, inner: seq<Lexeme>)
    requires Spaced(inner)
    ensures Spaced([word, Open] + inner + [Close])
  {
    SpacedAround([word], Open, inner);
    SpacedAround([word] + [Open] + inner, Close, []);
    assert [word] + [Open] == [word, Open];
    assert [word] + [Open] + inner + [Close] + [] == [word, Open] + inner + [Close];
  }

  lemma SpacedBrackets(xs: seq<Lexeme>)
    requires Spaced(xs)
    ensures Spaced([Open] + xs + [Close])
  {
    SpacedAround([], Open, xs);
    ConcatNothing([Open]);
    SpacedAround([Open] + xs, Close, []);
    ConcatNothing([Open] + xs + [Close]);
  }

  lemma SpacedCast(xs: seq<Lexeme>, ty: Lexeme)
    requires Spaced(xs)
    ensures Spaced([Word(CastKw), Open] + xs + [Word(AsKw), ty, Close])
  {
    var inner := xs + [Word(AsKw)] + [ty];
    SpacedAround(xs, Word(AsKw), [ty]);
    SpacedCall(Word(CastKw), inner);
    assert [Word(CastKw), Open] + inner + [Close] == [Word(CastKw), Open] + xs + [Word(AsKw), ty, Close];
  }

  lemma SpacedPair(fn: Lexeme, xs: seq<Lexeme>, ys: seq<Lexeme>)
    requires Spaced(xs) && Spaced(ys)
    ensures Spaced([fn, Open] + xs + [Comma] + ys + [Close])
  {
    var inner := xs + [Comma] + ys;
    SpacedAround(xs, Comma, ys);
    SpacedCall(fn, inner);
    assert [fn, Open] + inner + [Close] == [fn, Open] + xs + [Comma] + ys + [Close];
  }

  /** In every SQL expression of the fragment words and leaves stand between brackets, commas and operators. */
  lemma {:induction false} ExpressionsAreSpaced(t: SqlExpr)
    ensures Spaced(t.Lexemes())
  {
    match t
    case Atom(_) =>
    case Paren(a) =>
      ExpressionsAreSpaced(a);
      SpacedBrackets(a.Lexemes());
    case Binary(op, l, r) =>
      ExpressionsAreSpaced(l);
      ExpressionsAreSpaced(r);
      SpacedAround(l.Lexemes(), Infix(op), r.Lexemes());
    case Lower(a) =>
      ExpressionsAreSpaced(a);
      SpacedCall(Word(LowerKw), a.Lexemes());
    case Cast(ty, a) =>
      ExpressionsAreSpaced(a);
      SpacedCast(a.Lexemes(), Word(TypeKw(ty)));
    case Call(fn, a, b) =>
      ExpressionsAreSpaced(a);
      ExpressionsAreSpaced(b);
      SpacedPair(Word(FnKw(fn)), a.Lexemes(), b.Lexemes());
  }

  ghost predicate PlainLexeme(x: Lexeme, h: Host) {
    Plain(LexemeText(x, h))
  }

  ghost predicate AllPlain(xs: seq<Lexeme>, h: Host) {
    forall x :: x in xs ==> PlainLexeme(x, h)
  }

  /** The tokens of the lexemes, one lexeme after the other. */
  function TokensOf<T>(tokens: string -> seq<T>, xs: seq<Lexeme>, h: Host): seq<T> {
    if xs == [] then [] else tokens(LexemeText(xs[0], h)) + TokensOf(tokens, xs[1..], h)
  }

  lemma {:induction false} RenderStarts(xs: seq<Lexeme>, h: Host)
    requires xs != [] && Bordered(xs[0])
    ensures Starts(Render(xs, h))
  {
    BorderedEnds(xs[0], h);
  }

  lemma {:induction false} RenderSplits<T(!new)>(tokens: string -> seq<T>, xs: seq<Lexeme>, h: Host)
    requires SplitsAtDelimiters(tokens) && Spaced(xs) && AllPlain(xs, h)
    ensures Plain(Render(xs, h)) && tokens(Render(xs, h)) == TokensOf(tokens, xs, h)
  {
    if xs != [] {
      var x, rest := xs[0], xs[1..];
      assert xs[0] in xs && PlainLexeme(x, h);
      assert forall y :: y in rest ==> y in xs;
      forall k | 0 <= k < |rest| - 1 ensures Bordered(rest[k]) || Bordered(rest[k + 1]) {
        assert rest[k] == xs[k + 1];
      }
      RenderSplits(tokens, rest, h);
      if rest == [] {
        ConcatNothing(LexemeText(x, h));
        ConcatNothing(tokens(LexemeText(x, h)));
      } else {
        assert Bordered(xs[0]) || Bordered(xs[1]);
        if Bordered(x) { BorderedEnds(x, h); } else { RenderStarts(rest, h); }
        PlainJoin(LexemeText(x, h), Render(rest, h));
        assert Splits(tokens, LexemeText(x, h), Render(rest, h));
      }
    }
  }

  /** The columns and the numbers of a filter are written without quotes and comments. */
  ghost predicate PlainLeaves(e: Node, names: NameMap, h: Host) {
    match e
    case Constant(num) => Plain(ReprNumber(num, h))
    case Literal(_) => true
    case Var(name) => name in names ==> Plain(names[name])
    case BinOp(_, l, r) => PlainLeaves(l, names, h) && PlainLeaves(r, names, h)
  }

  lemma PlainShort(s: string)
    requires |s| <= 1 && (s != "" ==> !IsQuote(s[0]))
    ensures Plain(s)
  {
  }

  lemma PlainOperator(op: Op, h: Host)
    ensures PlainLexeme(Infix(op), h)
  {
    var o := SqlOpText(op);
    assert |o| <= 3 && forall k :: 0 <= k < |o| ==> !IsQuote(o[k]);
    var s := " " + o + " ";
    assert LexemeText(Infix(op), h) == s;
  }

  lemma PlainSign(x: Lexeme, h: Host)
    requires x.Open? || x.Close? || x.Comma? || x.Mark? || x.Word?
    ensures PlainLexeme(x, h)
  {
    var s := LexemeText(x, h);
    assert forall k :: 0 <= k < |s| ==> !IsQuote(s[k]) && s[k] != '-' && s[k] != '/';
  }

  lemma PlainSigns(h: Host)
    ensures AllPlain([Open, Close, Comma, Mark, Word(LowerKw), Word(CastKw), Word(AsKw), Word(TypeKw(AsText)),
            Word(FnKw(InstrFn))], h)
    ensures forall op: Op :: PlainLexeme(Infix(op), h)
    ensures PlainLexeme(NumberText(Whole(0)), h)
  {
    PlainSign(Open, h);
    PlainSign(Close, h);
    PlainSign(Comma, h);
    PlainSign(Mark, h);
    PlainSign(Word(LowerKw), h);
    PlainSign(Word(CastKw), h);
    PlainSign(Word(AsKw), h);
    PlainSign(Word(TypeKw(AsText)), h);
    PlainSign(Word(FnKw(InstrFn)), h);
    forall op: Op ensures PlainLexeme(Infix(op), h) { PlainOperator(op, h); }
    assert FormatInt(0) == "0";
    PlainShort("0");
  }

  /** Every lexeme of what is compiled is plain. */
  lemma {:induction false} CompiledIsPlain(e: Node, names: NameMap, h: Host)
    requires KnownNames(e, names) && PlainLeaves(e, names, h)
    ensures AllPlain(Compiled(e, names).Lexemes(), h)
  {
    PlainSigns(h);
    match e
    case Constant(_) =>
    case Literal(_) =>
    case Var(_) =>
    case BinOp(op, l, r) =>
      CompiledIsPlain(l, names, h);
      CompiledIsPlain(r, names, h);
      var a, b := Compiled(l, names), Compiled(r, names);
      if op == Like {
        LikeMembers(a, b, h);
      } else {
        assert Compiled(e, names).Lexemes() == [Open] + (a.Lexemes() + [Infix(op)] + b.Lexemes()) + [Close];
      }
  }

  lemma LikeMembers(a: SqlExpr, b: SqlExpr, h: Host)
    requires AllPlain(a.Lexemes(), h) && AllPlain(b.Lexemes(), h)
    ensures AllPlain(Paren(Binary(Gt, Call(InstrFn, Lower(Cast(AsText, a)), Lower(b)), Atom(NumberText(Whole(0)))))
                     .Lexemes(), h)
  {
    PlainSigns(h);
    LikeLexemes(a, b);
    PlainLists(LIKE_HEAD, a.Lexemes(), h);
    PlainLists(LIKE_HEAD + a.Lexemes(), LIKE_MIDDLE, h);
    PlainLists(LIKE_HEAD + a.Lexemes() + LIKE_MIDDLE, b.Lexemes(), h);
    PlainLists(LIKE_HEAD + a.Lexemes() + LIKE_MIDDLE + b.Lexemes(), LIKE_TAIL, h);
  }

  lemma PlainLists(xs: seq<Lexeme>, ys: seq<Lexeme>, h: Host)
    requires AllPlain(xs, h) && AllPlain(ys, h)
    ensures AllPlain(xs + ys, h)
  {
  }

  /**
   The emitted text read by any tokenizer that splits at delimiters is the lexemes of the compiled expression, each
   read on its own: no two of them run together, and none is taken for part of a string or comment.
  */
  lemma TextSplits<T(!new)>(tokens: string -> seq<T>, e: Node, names: NameMap, h: Host)
    requires SplitsAtDelimiters(tokens) && KnownNames(e, names) && PlainLeaves(e, names, h)
    ensures ToSql(e, names, h).Ok?
    ensures tokens(ToSql(e, names, h).value.text) == TokensOf(tokens, Compiled(e, names).Lexemes(), h)
  {
    EmitsCompiled(e, names, h);
    ExpressionsAreSpaced(Compiled(e, names));
    CompiledIsPlain(e, names, h);
    RenderSplits(tokens, Compiled(e, names).Lexemes(), h);
  }

  // ----- one such tokenizer -----

  /** The length of the run without delimiters a text starts with. */
  function RunOf(s: string): (n: nat)
    ensures n <= |s| && (n < |s| ==> IsDelimiter(s[n]))
    ensures forall k :: 0 <= k < n ==> !IsDelimiter(s[k])
  {
    if s == "" || IsDelimiter(s[0]) then 0 else 1 + RunOf(s[1..])
  }

  /** Single delimiters, and the runs between them. */
  function Pieces(s: string): seq<string> {
    if s == "" then []
    else
      var n := if IsDelimiter(s[0]) then 1 else RunOf(s);
      [s[..n]] + Pieces(s[n..])
  }

  lemma RunOfIs(s: string, n: nat)
    requires n <= |s| && (forall k :: 0 <= k < n ==> !IsDelimiter(s[k])) && (n < |s| ==> IsDelimiter(s[n]))
    ensures RunOf(s) == n
  {
  }

  lemma {:induction false} PiecesJoin(x: string, y: string)
    requires x == "" || Seam(x, y)
    ensures Splits(Pieces, x, y)
  {
    if x == "" {
      ConcatNothing(y);
      ConcatNothing(Pieces(y));
    } else {
      var s := x + y;
      var n := if IsDelimiter(x[0]) then 1 else RunOf(x);
      if !IsDelimiter(x[0]) {
        assert forall k :: 0 <= k < |x| ==> s[k] == x[k];
        assert n == |x| ==> !IsDelimiter(x[|x| - 1]);
        RunOfIs(s, n);
      }
      assert s[..n] == x[..n] && s[n..] == x[n..] + y;
      PiecesJoin(x[n..], y);
      Associative([x[..n]], Pieces(x[n..]), Pieces(y));
    }
  }

  lemma PiecesSplit()
    ensures SplitsAtDelimiters(Pieces)
  {
    forall x, y | Plain(x) && Plain(y) && Seam(x, y) ensures Splits(Pieces, x, y) { PiecesJoin(x, y); }
  }
}

/** The SQL back end: a parameterised WHERE fragment, and what SQLite makes of it. */
module FilterSql {
  import opened Lists
  import opened Results
  import opened Texts
  import opened FilterLexer
  import opened FilterParser
  import opened FilterEvaluate

  type NameMap = map<string, string>

  datatype Fragment = Fragment(text: string, params: seq<string>)

  datatype EmitError = UnknownField(name: string)

  function SqlOpText(op: Op): string {
    match op
    case Or => "OR" case And => "AND"
    case Eq => "=" case Ne => "<>" case Like => ""
    case Lt => "<" case Le => "<=" case Gt => ">" case Ge => ">="
    case Add => "+" case Sub => "-" case Mul => "*" case Div => "/"
  }

  function ReprNumber(num: Num, h: Host): string {
    match num
    case Whole(n) => FormatInt(n)
    case Decimal(r) => h.repr(r)
  }

  /** The emitter in the "qmark" dialect, the one every caller uses. */
  function ToSql(e: Node, names: NameMap, h: Host): Result<Fragment, EmitError> {
    match e
    case Constant(num) => Ok(Fragment(ReprNumber(num, h), []))
    case Literal(text) => Ok(Fragment("?", [text]))
    case Var(name) => if name in names then Ok(Fragment(names[name], [])) else Err(UnknownField(name))
    case BinOp(op, left, right) =>
      var l :- ToSql(left, names, h);
      var r :- ToSql(right, names, h);
      Ok(Fragment(OperatorText(op, l.text, r.text), l.params + r.params))
  }

  function OperatorText(op: Op, l: string, r: string): string {
    if op == Like then "(instr(lower(CAST(" + l + " AS TEXT)), lower(" + r + ")) > 0)"
    else "(" + l + " " + SqlOpText(op) + " " + r + ")"
  }

  // ----- the SQL a reader of the fragment sees -----

  datatype SqlType = AsText | AsReal

  datatype Fn = InstrFn | CoalesceFn | NullIfFn

  datatype Keyword = LowerKw | CastKw | AsKw | TypeKw(ty: SqlType) | FnKw(fn: Fn)

  function KeywordText(k: Keyword): string {
    match k
    case LowerKw => "lower"
    case CastKw => "CAST"
    case AsKw => " AS "
    case TypeKw(AsText) => "TEXT"
    case TypeKw(AsReal) => "REAL"
    case FnKw(InstrFn) => "instr"
    case FnKw(CoalesceFn) => "COALESCE"
    case FnKw(NullIfFn) => "NULLIF"
  }

  datatype Lexeme =
    | Open | Close | Comma
    | Word(word: Keyword)
    | Infix(op: Op)
    | Column(column: string)
    | NumberText(num: Num)
    | Mark

  /** The characters of a lexeme, with the spaces the emitter puts around it. */
  function LexemeText(x: Lexeme, h: Host): string {
    match x
    case Open => "("
    case Close => ")"
    case Comma => ", "
    case Word(word) => KeywordText(word)
    case Infix(op) => " " + SqlOpText(op) + " "
    case Column(column) => column
    case NumberText(num) => ReprNumber(num, h)
    case Mark => "?"
  }

  function Render(xs: seq<Lexeme>, h: Host): string {
    if xs == [] then "" else LexemeText(xs[0], h) + Render(xs[1..], h)
  }

  /**
   SQL expressions over those lexemes. The grammar has no precedence: an operator may stand between
   any two expressions, so it contains every way SQL could group a text.
  */
  datatype SqlExpr =
    | Atom(leaf: Lexeme)
    | Paren(inner: SqlExpr)
    | Binary(op: Op, left: SqlExpr, right: SqlExpr)
    | Lower(arg: SqlExpr)
    | Cast(ty: SqlType, arg: SqlExpr)
    | Call(fn: Fn, first: SqlExpr, second: SqlExpr)
  {
    predicate Valid() {
      match this
      case Atom(x) => x.Column? || x.NumberText? || x.Mark?
      case Paren(a) => a.Valid()
      case Binary(_, l, r) => l.Valid() && r.Valid()
      case Lower(a) => a.Valid()
      case Cast(_, a) => a.Valid()
      case Call(_, a, b) => a.Valid() && b.Valid()
    }

    function Lexemes(): seq<Lexeme> {
      match this
      case Atom(x) => [x]
      case Paren(a) => [Open] + a.Lexemes() + [Close]
      case Binary(op, l, r) => l.Lexemes() + [Infix(op)] + r.Lexemes()
      case Lower(a) => [Word(LowerKw), Open] + a.Lexemes() + [Close]
      case Cast(ty, a) => [Word(CastKw), Open] + a.Lexemes() + [Word(AsKw), Word(TypeKw(ty)), Close]
      case Call(fn, a, b) => [Word(FnKw(fn)), Open] + a.Lexemes() + [Comma] + b.Lexemes() + [Close]
    }
  }

  predicate KnownNames(e: Node, names: NameMap) {
    match e
    case Var(name) => name in names
    case BinOp(_, l, r) => KnownNames(l, names) && KnownNames(r, names)
    case _ => true
  }

  /** The SQL expression the filter tree means. */
  function Compiled(e: Node, names: NameMap): (t: SqlExpr)
    requires KnownNames(e, names)
    ensures t.Valid() && !t.Binary?
  {
    match e
    case Constant(num) => Atom(NumberText(num))
    case Literal(_) => Atom(Mark)
    case Var(name) => Atom(Column(names[name]))
    case BinOp(op, l, r) =>
      var a, b := Compiled(l, names), Compiled(r, names);
      if op == Like then
        assert Cast(AsText, a).Valid() && Lower(Cast(AsText, a)).Valid() && Lower(b).Valid();
        Paren(Binary(Gt, Call(InstrFn, Lower(Cast(AsText, a)), Lower(b)), Atom(NumberText(Whole(0)))))
      else Paren(Binary(op, a, b))
  }

  /** The string literals of the tree, left to right. */
  function Strings(e: Node): seq<string> {
    match e
    case Literal(text) => [text]
    case BinOp(_, l, r) => Strings(l) + Strings(r)
    case _ => []
  }

  lemma {:induction false} RenderConcat(a: seq<Lexeme>, b: seq<Lexeme>, h: Host)
    ensures Render(a + b, h) == Render(a, h) + Render(b, h)
  {
    if a == [] {
      ConcatNothing(b);
      ConcatNothing(Render(b, h));
    } else {
      RenderConcat(a[1..], b, h);
      FirstOfConcat(a, b);
      Associative(LexemeText(a[0], h), Render(a[1..], h), Render(b, h));
    }
  }

  lemma Render3(a: seq<Lexeme>, b: seq<Lexeme>, c: seq<Lexeme>, h: Host)
    ensures Render(a + b + c, h) == Render(a, h) + Render(b, h) + Render(c, h)
  {
    RenderConcat(a + b, c, h);
    RenderConcat(a, b, h);
  }

  lemma RenderOne(x: Lexeme, h: Host)
    ensures Render([x], h) == LexemeText(x, h)
  {
  }

  lemma RenderTwo(x: Lexeme, y: Lexeme, h: Host)
    ensures Render([x, y], h) == LexemeText(x, h) + LexemeText(y, h)
  {
    RenderOne(y, h);
    assert [x, y][1..] == [y];
  }

  lemma RenderThree(x: Lexeme, y: Lexeme, z: Lexeme, h: Host)
    ensures Render([x, y, z], h) == LexemeText(x, h) + LexemeText(y, h) + LexemeText(z, h)
  {
    assert [x, y, z][1..] == [y, z];
    RenderTwo(y, z, h);
  }

  const LIKE_HEAD: seq<Lexeme> :=
    [Open] + ([Word(FnKw(InstrFn)), Open] + ([Word(LowerKw), Open] + [Word(CastKw), Open]))
  const LIKE_MIDDLE: seq<Lexeme> := [Word(AsKw), Word(TypeKw(AsText)), Close] + ([Close, Comma] + [Word(LowerKw), Open])
  const LIKE_TAIL: seq<Lexeme> := [Close, Close, Infix(Gt)] + [NumberText(Whole(0)), Close]

  lemma RenderLikeHead(h: Host)
    ensures Render(LIKE_HEAD, h) == "(instr(lower(CAST("
  {
    RenderConcat([Open], [Word(FnKw(InstrFn)), Open] + ([Word(LowerKw), Open] + [Word(CastKw), Open]), h);
    RenderConcat([Word(FnKw(InstrFn)), Open], [Word(LowerKw), Open] + [Word(CastKw), Open], h);
    RenderConcat([Word(LowerKw), Open], [Word(CastKw), Open], h);
    RenderTwo(Word(FnKw(InstrFn)), Open, h);
    RenderTwo(Word(LowerKw), Open, h);
    RenderTwo(Word(CastKw), Open, h);
    LikeHeadText();
  }

  lemma LikeHeadText()
    ensures "(" + ("instr" + "(" + ("lower" + "(" + ("CAST" + "("))) == "(instr(lower(CAST("
  {
    assert "CAST" + "(" == "CAST(" && "lower" + "(" == "lower(" && "instr" + "(" == "instr(";
    assert "lower(" + "CAST(" == "lower(CAST(";
    assert "instr(" + "lower(CAST(" == "instr(lower(CAST(";
  }

  lemma RenderLikeMiddle(h: Host)
    ensures Render(LIKE_MIDDLE, h) == " AS TEXT)), lower("
  {
    RenderConcat([Word(AsKw), Word(TypeKw(AsText)), Close], [Close, Comma] + [Word(LowerKw), Open], h);
    RenderConcat([Close, Comma], [Word(LowerKw), Open], h);
    RenderThree(Word(AsKw), Word(TypeKw(AsText)), Close, h);
    RenderTwo(Close, Comma, h);
    RenderTwo(Word(LowerKw), Open, h);
  }

  lemma RenderLikeTail(h: Host)
    ensures Render(LIKE_TAIL, h) == ")) > 0)"
  {
    RenderConcat([Close, Close, Infix(Gt)], [NumberText(Whole(0)), Close], h);
    RenderThree(Close, Close, Infix(Gt), h);
    RenderTwo(NumberText(Whole(0)), Close, h);
    assert DigitText(0) == "0";
  }

  lemma Nested(p: seq<Lexeme>, q: seq<Lexeme>, a: seq<Lexeme>, r: seq<Lexeme>, t: seq<Lexeme>)
    ensures p + (q + a + r) + t == (p + q) + a + (r + t)
  {
  }

  lemma Joined(p: seq<Lexeme>, a: seq<Lexeme>, q: seq<Lexeme>, r: seq<Lexeme>, b: seq<Lexeme>, t: seq<Lexeme>)
    ensures (p + a + q) + (r + b + t) == p + a + (q + r) + b + t
  {
  }

  lemma LikeLexemes(l: SqlExpr, r: SqlExpr)
    ensures Paren(Binary(Gt, Call(InstrFn, Lower(Cast(AsText, l)), Lower(r)), Atom(NumberText(Whole(0))))).Lexemes()
            == LIKE_HEAD + l.Lexemes() + LIKE_MIDDLE + r.Lexemes() + LIKE_TAIL
  {
    var a, b := l.Lexemes(), r.Lexemes();
    var castOpen, castClose := [Word(CastKw), Open], [Word(AsKw), Word(TypeKw(AsText)), Close];
    var lowerOpen, instrOpen := [Word(LowerKw), Open], [Word(FnKw(InstrFn)), Open];
    var hay, needle, zero := Lower(Cast(AsText, l)), Lower(r), Atom(NumberText(Whole(0)));
    Nested(lowerOpen, castOpen, a, castClose, [Close]);
    assert hay.Lexemes() == (lowerOpen + castOpen) + a + (castClose + [Close]);
    Nested(instrOpen, lowerOpen + castOpen, a, castClose + [Close], [Comma]);
    var head, middle := instrOpen + (lowerOpen + castOpen), castClose + [Close] + [Comma];
    assert instrOpen + hay.Lexemes() + [Comma] == head + a + middle;
    Joined(head, a, middle, lowerOpen, b, [Close]);
    var call := Call(InstrFn, hay, needle);
    assert call.Lexemes() == head + a + (middle + lowerOpen) + b + [Close] + [Close];
    var front := head + a + (middle + lowerOpen);
    assert call.Lexemes() + [Infix(Gt)] + zero.Lexemes()
        == front + b + ([Close] + [Close] + [Infix(Gt)] + zero.Lexemes());
    assert [Open] + front == LIKE_HEAD + a + LIKE_MIDDLE by {
      assert middle + lowerOpen == LIKE_MIDDLE;
    }
    Nested([Open], front, b, [Close] + [Close] + [Infix(Gt)] + zero.Lexemes(), [Close]);
    assert [Close] + [Close] + [Infix(Gt)] + zero.Lexemes() + [Close] == LIKE_TAIL;
  }

  /**
   The fragment is emitted iff every field is known; its text is exactly the compiled expression,
   and its parameters are the string literals in order.
  */
  lemma {:induction false} EmitsCompiled(e: Node, names: NameMap, h: Host)
    ensures ToSql(e, names, h).Ok? <==> KnownNames(e, names)
    ensures KnownNames(e, names) ==>
              ToSql(e, names, h) == Ok(Fragment(Render(Compiled(e, names).Lexemes(), h), Strings(e)))
    decreases e
  {
    match e
    case Constant(num) => assert Render([NumberText(num)], h) == ReprNumber(num, h);
    case Literal(_) => assert Render([Mark], h) == "?";
    case Var(name) => if name in names { assert Render([Column(names[name])], h) == names[name]; }
    case BinOp(op, l, r) =>
      EmitsCompiled(l, names, h);
      EmitsCompiled(r, names, h);
      if KnownNames(e, names) {
        RenderOperator(op, Compiled(l, names), Compiled(r, names), h);
        assert ToSql(e, names, h).value.params == Strings(e);
      }
  }

  lemma RenderOperator(op: Op, a: SqlExpr, b: SqlExpr, h: Host)
    ensures op != Like ==>
              Render(Paren(Binary(op, a, b)).Lexemes(), h)
              == "(" + Render(a.Lexemes(), h) + " " + SqlOpText(op) + " " + Render(b.Lexemes(), h) + ")"
    ensures Render(Paren(Binary(Gt, Call(InstrFn, Lower(Cast(AsText, a)), Lower(b)), Atom(NumberText(Whole(0)))))
                   .Lexemes(), h)
            == "(instr(lower(CAST(" + Render(a.Lexemes(), h) + " AS TEXT)), lower(" + Render(b.Lexemes(), h) + ")) > 0)"
  {
    LikeLexemes(a, b);
    RenderLikeHead(h);
    RenderLikeMiddle(h);
    RenderLikeTail(h);
    Render3(LIKE_HEAD + a.Lexemes() + LIKE_MIDDLE, b.Lexemes(), LIKE_TAIL, h);
    Render3(LIKE_HEAD, a.Lexemes(), LIKE_MIDDLE, h);
    Render3([Open], Binary(op, a, b).Lexemes(), [Close], h);
    Render3(a.Lexemes(), [Infix(op)], b.Lexemes(), h);
    InfixText(op, Render(a.Lexemes(), h), Render(b.Lexemes(), h), h);
  }

  lemma Flatten(p: string, a: string, s: string, o: string, b: string, q: string)
    ensures p + (a + (s + o + s) + b) + q == p + a + s + o + s + b + q
  {
  }

  lemma InfixText(op: Op, a: string, b: string, h: Host)
    ensures Render([Open], h) + (a + Render([Infix(op)], h) + b) + Render([Close], h)
            == "(" + a + " " + SqlOpText(op) + " " + b + ")"
  {
    RenderOne(Open, h);
    RenderOne(Infix(op), h);
    RenderOne(Close, h);
    Flatten("(", a, " ", SqlOpText(op), b, ")");
  }

  // ----- the "?" marks of the text -----

  function Marks(s: string): nat {
    if s == "" then 0 else (if s[0] == '?' then 1 else 0) + Marks(s[1..])
  }

  lemma {:induction false} MarksConcat(a: string, b: string)
    ensures Marks(a + b) == Marks(a) + Marks(b)
  {
    if a == "" {
      assert a + b == b;
    } else {
      MarksConcat(a[1..], b);
      assert (a + b)[1..] == a[1..] + b;
    }
  }

  lemma {:induction false} NoMarks(s: string)
    requires '?' !in s
    ensures Marks(s) == 0
  {
    if s != "" { NoMarks(s[1..]); }
  }

  lemma {:induction false} DigitTextUnmarked(n: nat)
    ensures '?' !in DigitText(n)
  {
    if n >= 10 { DigitTextUnmarked(n / 10); }
  }

  ghost predicate Unmarked(names: NameMap, h: Host) {
    && (forall name :: name in names ==> '?' !in names[name])
    && (forall r: real :: '?' !in h.repr(r))
  }

  lemma MarksAround(head: string, a: string, middle: string, b: string, tail: string)
    requires '?' !in head && '?' !in middle && '?' !in tail
    ensures Marks(head + a + middle + b + tail) == Marks(a) + Marks(b)
  {
    NoMarks(head);
    NoMarks(middle);
    NoMarks(tail);
    MarksConcat(head + a + middle + b, tail);
    MarksConcat(head + a + middle, b);
    MarksConcat(head + a, middle);
    MarksConcat(head, a);
  }

  /** The text has as many "?" as there are parameters. */
  lemma {:induction false} MarksMatchParams(e: Node, names: NameMap, h: Host)
    requires Unmarked(names, h) && ToSql(e, names, h).Ok?
    ensures Marks(ToSql(e, names, h).value.text) == |ToSql(e, names, h).value.params|
    decreases e
  {
    match e
    case Constant(num) =>
      if num.Whole? { DigitTextUnmarked(Abs(num.n)); }
      NoMarks(ReprNumber(num, h));
    case Literal(_) => assert Marks("?") == 1;
    case Var(name) => NoMarks(names[name]);
    case BinOp(op, left, right) =>
      MarksMatchParams(left, names, h);
      MarksMatchParams(right, names, h);
      MarksOfOperator(op, ToSql(left, names, h).value.text, ToSql(right, names, h).value.text);
  }

  lemma MarksOfOperator(op: Op, l: string, r: string)
    ensures Marks(OperatorText(op, l, r)) == Marks(l) + Marks(r)
  {
    if op == Like {
      MarksAround("(instr(lower(CAST(", l, " AS TEXT)), lower(", r, ")) > 0)");
    } else {
      var o := " " + SqlOpText(op) + " ";
      MarksAround("(", l, o, r, ")");
      assert "(" + l + o + r + ")" == "(" + l + " " + SqlOpText(op) + " " + r + ")";
    }
  }

  // ----- no regrouping -----

  /** Every operator stands alone inside its own brackets. */
  ghost predicate FullyBracketed(t: SqlExpr) {
    match t
    case Atom(_) => true
    case Paren(a) => if a.Binary? then FullyBracketed(a.left) && FullyBracketed(a.right) else FullyBracketed(a)
    case Binary(_, _, _) => false
    case Lower(a) => FullyBracketed(a)
    case Cast(_, a) => if a.Binary? then FullyBracketed(a.left) && FullyBracketed(a.right) else FullyBracketed(a)
    case Call(_, a, b) => FullyBracketed(a) && FullyBracketed(b)
  }

  lemma {:induction false} CompiledIsBracketed(e: Node, names: NameMap)
    requires KnownNames(e, names)
    ensures FullyBracketed(Compiled(e, names))
  {
    if e.BinOp? {
      CompiledIsBracketed(e.left, names);
      CompiledIsBracketed(e.right, names);
      var a, b := Compiled(e.left, names), Compiled(e.right, names);
      assert FullyBracketed(Lower(Cast(AsText, a))) && FullyBracketed(Lower(b));
      assert FullyBracketed(Call(InstrFn, Lower(Cast(AsText, a)), Lower(b)));
    }
  }

  /** The first operand of `t` and the operators and operands after it, left to right. */
  ghost function Operands(t: SqlExpr): (r: (SqlExpr, seq<(Op, SqlExpr)>))
    ensures !r.0.Binary? && (t.Valid() ==> r.0.Valid())
    ensures forall x :: x in r.1 ==> !x.1.Binary? && (t.Valid() ==> x.1.Valid())
  {
    if t.Binary? then
      var (a, xs) := Operands(t.left);
      var (b, ys) := Operands(t.right);
      (a, xs + [(t.op, b)] + ys)
    else (t, [])
  }

  ghost function Chain(xs: seq<(Op, SqlExpr)>): seq<Lexeme> {
    if xs == [] then [] else [Infix(xs[0].0)] + xs[0].1.Lexemes() + Chain(xs[1..])
  }

  lemma {:induction false} ChainConcat(xs: seq<(Op, SqlExpr)>, ys: seq<(Op, SqlExpr)>)
    ensures Chain(xs + ys) == Chain(xs) + Chain(ys)
  {
    if xs == [] {
      ConcatNothing(ys);
      ConcatNothing(Chain(ys));
    } else {
      ChainConcat(xs[1..], ys);
      FirstOfConcat(xs, ys);
      Associative([Infix(xs[0].0)] + xs[0].1.Lexemes(), Chain(xs[1..]), Chain(ys));
    }
  }

  lemma ChainThree(xs: seq<(Op, SqlExpr)>, op: Op, b: SqlExpr, ys: seq<(Op, SqlExpr)>)
    ensures Chain(xs + [(op, b)] + ys) == Chain(xs) + ([Infix(op)] + b.Lexemes()) + Chain(ys)
  {
    ChainConcat(xs + [(op, b)], ys);
    ChainConcat(xs, [(op, b)]);
    assert Chain([(op, b)]) == [Infix(op)] + b.Lexemes();
  }

  lemma Regroup(p: seq<Lexeme>, q: seq<Lexeme>, x: seq<Lexeme>, r: seq<Lexeme>, t: seq<Lexeme>)
    ensures (p + q) + x + (r + t) == p + (q + (x + r) + t)
  {
  }

  lemma {:induction false} OperandsYield(t: SqlExpr)
    ensures t.Lexemes() == Operands(t).0.Lexemes() + Chain(Operands(t).1)
  {
    if t.Binary? {
      OperandsYield(t.left);
      OperandsYield(t.right);
      var (a, xs) := Operands(t.left);
      var (b, ys) := Operands(t.right);
      ChainThree(xs, t.op, b, ys);
      Regroup(a.Lexemes(), Chain(xs), [Infix(t.op)], b.Lexemes(), Chain(ys));
    }
  }


  lemma NoChain(xs: seq<(Op, SqlExpr)>, after: seq<Lexeme>, rest: seq<Lexeme>)
    requires after == Chain(xs) + rest && after != [] && !after[0].Infix?
    ensures xs == [] && after == rest
  {
  }

  lemma ChainCons(xs: seq<(Op, SqlExpr)>, rest: seq<Lexeme>)
    requires xs != []
    ensures Chain(xs) + rest == [Infix(xs[0].0)] + (xs[0].1.Lexemes() + (Chain(xs[1..]) + rest))
  {
  }

  /** Expressions followed by something that is not an operator are equal if their texts are. */
  lemma {:induction false} Delimited(t: SqlExpr, u: SqlExpr, after: seq<Lexeme>, rest: seq<Lexeme>)
    requires FullyBracketed(t) && u.Valid() && t.Valid()
    requires after != [] && rest != [] && !after[0].Infix?
    requires t.Lexemes() + after == u.Lexemes() + rest
    ensures t == u && after == rest
    decreases t, 2
  {
    FirstOperand(t, u, after, rest);
    var xs := Operands(u).1;
    NoChain(xs, after, rest);
  }

  /** A text that starts with a bracketed expression `t` has `t` as its first operand, however it is grouped. */
  lemma {:induction false} FirstOperand(t: SqlExpr, u: SqlExpr, after: seq<Lexeme>, rest: seq<Lexeme>)
    requires FullyBracketed(t) && u.Valid() && t.Valid()
    requires t.Lexemes() + after == u.Lexemes() + rest
    ensures Operands(u).0 == t && after == Chain(Operands(u).1) + rest
    decreases t, 1
  {
    OperandsYield(u);
    var (first, xs) := Operands(u);
    assert first.Lexemes() + (Chain(xs) + rest) == t.Lexemes() + after;
    SameOperand(t, first, after, Chain(xs) + rest);
  }

  lemma Wrapped(o: seq<Lexeme>, a: seq<Lexeme>, c: seq<Lexeme>, after: seq<Lexeme>)
    ensures o + a + c + after == o + (a + (c + after))
  {
  }

  lemma Tail(x: seq<Lexeme>, a: seq<Lexeme>, b: seq<Lexeme>)
    requires x + a == x + b
    ensures a == b
  {
    assert (x + a)[|x|..] == a && (x + b)[|x|..] == b;
  }

  lemma OperandsOfPair(u: SqlExpr, l: SqlExpr, op: Op, r: SqlExpr)
    requires Operands(u) == (l, [(op, r)])
    ensures u == Binary(op, l, r)
  {
    var xs, ys := Operands(u.left).1, Operands(u.right).1;
    assert |xs| + 1 + |ys| == 1;
    assert (xs + [(u.op, Operands(u.right).0)] + ys)[0] == (op, r);
  }

  lemma {:induction false} SameOperand(t: SqlExpr, u: SqlExpr, after: seq<Lexeme>, rest: seq<Lexeme>)
    requires FullyBracketed(t) && !u.Binary? && u.Valid() && t.Valid()
    requires t.Lexemes() + after == u.Lexemes() + rest
    ensures t == u && after == rest
    decreases t, 0
  {
    assert t.Lexemes()[0] == (t.Lexemes() + after)[0] == u.Lexemes()[0];
    match t
    case Atom(x) => Tail([x], after, rest);
    case Paren(a) => SameParen(a, u.inner, after, rest);
    case Lower(a) =>
      var o, c := [Word(LowerKw), Open], [Close];
      Wrapped(o, a.Lexemes(), c, after);
      Wrapped(o, u.arg.Lexemes(), c, rest);
      Tail(o, a.Lexemes() + (c + after), u.arg.Lexemes() + (c + rest));
      Delimited(a, u.arg, c + after, c + rest);
      Tail(c, after, rest);
    case Cast(ty, a) =>
      SameCast(ty, a, u.ty, u.arg, after, rest);
    case Call(fn, a, b) => SameCall(fn, a, b, u.first, u.second, after, rest);
  }

  lemma {:induction false} SameCast(
    ty: SqlType, a: SqlExpr, tz: SqlType, b: SqlExpr, after: seq<Lexeme>, rest: seq<Lexeme>)
    requires FullyBracketed(Cast(ty, a)) && a.Valid() && b.Valid()
    requires Cast(ty, a).Lexemes() + after == Cast(tz, b).Lexemes() + rest
    ensures ty == tz && a == b && after == rest
    decreases a, 4
  {
    var o, c, d := [Word(CastKw), Open], [Word(AsKw), Word(TypeKw(ty)), Close], [Word(AsKw), Word(TypeKw(tz)), Close];
    Wrapped(o, a.Lexemes(), c, after);
    Wrapped(o, b.Lexemes(), d, rest);
    Tail(o, a.Lexemes() + (c + after), b.Lexemes() + (d + rest));
    SameInside(a, b, c + after, d + rest);
    assert (c + after)[1] == Word(TypeKw(ty)) && (d + rest)[1] == Word(TypeKw(tz));
    Tail(c, after, rest);
  }

  /** What stands between a bracket and the next lexeme that is no operator. */
  lemma {:induction false} SameInside(a: SqlExpr, b: SqlExpr, after: seq<Lexeme>, rest: seq<Lexeme>)
    requires FullyBracketed(Paren(a)) && a.Valid() && b.Valid()
    requires after != [] && rest != [] && !after[0].Infix? && !rest[0].Infix?
    requires a.Lexemes() + after == b.Lexemes() + rest
    ensures a == b && after == rest
    decreases a, 3
  {
    if a.Binary? {
      SamePair(a, b, after, rest);
    } else {
      Delimited(a, b, after, rest);
    }
  }

  lemma {:induction false} SameParen(a: SqlExpr, b: SqlExpr, after: seq<Lexeme>, rest: seq<Lexeme>)
    requires FullyBracketed(Paren(a)) && a.Valid() && b.Valid()
    requires Paren(a).Lexemes() + after == Paren(b).Lexemes() + rest
    ensures a == b && after == rest
    decreases a, 4
  {
    var c := [Close];
    Wrapped([Open], a.Lexemes(), c, after);
    Wrapped([Open], b.Lexemes(), c, rest);
    Tail([Open], a.Lexemes() + (c + after), b.Lexemes() + (c + rest));
    SameInside(a, b, c + after, c + rest);
    Tail(c, after, rest);
  }

  /** One operator between two bracketed expressions, up to a bracket, groups in one way only. */
  lemma {:induction false} SamePair(a: SqlExpr, b: SqlExpr, after: seq<Lexeme>, rest: seq<Lexeme>)
    requires a.Binary? && FullyBracketed(a.left) && FullyBracketed(a.right) && a.Valid() && b.Valid()
    requires after != [] && rest != [] && !after[0].Infix? && !rest[0].Infix?
    requires a.Lexemes() + after == b.Lexemes() + rest
    ensures a == b && after == rest
    decreases a, 2
  {
    var op := [Infix(a.op)];
    assert a.left.Lexemes() + (op + (a.right.Lexemes() + after)) == b.Lexemes() + rest;
    FirstOperand(a.left, b, op + (a.right.Lexemes() + after), rest);
    var (first, xs) := Operands(b);
    assert (Chain(xs) + rest)[0] == op[0];
    var y, ys := xs[0].1, xs[1..];
    ChainCons(xs, rest);
    Tail(op, a.right.Lexemes() + after, y.Lexemes() + (Chain(ys) + rest));
    SameOperand(a.right, y, after, Chain(ys) + rest);
    NoChain(ys, after, rest);
    assert xs == [(a.op, a.right)];
    OperandsOfPair(b, a.left, a.op, a.right);
  }

  lemma RightNested(o: seq<Lexeme>, a: seq<Lexeme>, m: seq<Lexeme>, b: seq<Lexeme>, z: seq<Lexeme>, after: seq<Lexeme>)
    ensures o + a + m + b + z + after == o + (a + (m + (b + (z + after))))
  {
  }

  lemma {:induction false} SameCall(
    fn: Fn, a: SqlExpr, b: SqlExpr, c: SqlExpr, d: SqlExpr, after: seq<Lexeme>, rest: seq<Lexeme>)
    requires FullyBracketed(a) && FullyBracketed(b) && a.Valid() && b.Valid() && c.Valid() && d.Valid()
    requires Call(fn, a, b).Lexemes() + after == Call(fn, c, d).Lexemes() + rest
    ensures a == c && b == d && after == rest
    decreases Call(fn, a, b), -1
  {
    var o, z := [Word(FnKw(fn)), Open], [Close];
    var x, y := [Comma] + (b.Lexemes() + (z + after)), [Comma] + (d.Lexemes() + (z + rest));
    RightNested(o, a.Lexemes(), [Comma], b.Lexemes(), z, after);
    RightNested(o, c.Lexemes(), [Comma], d.Lexemes(), z, rest);
    Tail(o, a.Lexemes() + x, c.Lexemes() + y);
    Delimited(a, c, x, y);
    Tail([Comma], b.Lexemes() + (z + after), d.Lexemes() + (z + rest));
    Delimited(b, d, z + after, z + rest);
    Tail(z, after, rest);
  }

  /** Whatever precedence a reader of the fragment applies, it can only group it as it was compiled. */
  lemma NoRegrouping(e: Node, names: NameMap, u: SqlExpr)
    requires KnownNames(e, names) && u.Valid()
    requires u.Lexemes() == Compiled(e, names).Lexemes()
    ensures u == Compiled(e, names)
  {
    CompiledIsBracketed(e, names);
    var t := Compiled(e, names);
    assert t.Lexemes() + [Close] == u.Lexemes() + [Close];
    Delimited(t, u, [Close], [Close]);
  }
}

/**
 The grammar of filter expressions and what the parser does with it: it accepts exactly the
 well-bracketed texts, gives each its only tree, and inverts printing.
*/
module FilterGrammar {
  import opened Results
  import opened FilterLexer
  import opened FilterLexicon
  import opened FilterParser

  /** A derivation: a leaf, a bracketed derivation, or an operator between two. */
  datatype Derivation =
    | Leaf(leaf: Node)
    | Bracketed(inner: Derivation)
    | Infix(op: Op, left: Derivation, right: Derivation)
  {
    /** Brackets may stand anywhere; without them precedence and left associativity must hold. */
    ghost predicate Valid(minBP: int) {
      match this
      case Leaf(n) => !n.BinOp?
      case Bracketed(d) => d.Valid(0)
      case Infix(op, l, r) =>
        BindingPower(op) > minBP && l.Valid(BindingPower(op) - 1) && r.Valid(BindingPower(op))
    }

    ghost function Tokens(): seq<Token> {
      match this
      case Leaf(n) => [LeafToken(n)]
      case Bracketed(d) => [LParen] + d.Tokens() + [RParen]
      case Infix(op, l, r) => l.Tokens() + [Operator(op)] + r.Tokens()
    }

    ghost function Tree(): Node {
      match this
      case Leaf(n) => n
      case Bracketed(d) => d.Tree()
      case Infix(op, l, r) => BinOp(op, l.Tree(), r.Tree())
    }
  }

  ghost function LeafToken(n: Node): Token {
    match n
    case Constant(num) => Number(num)
    case Literal(text) => Text(text)
    case Var(name) => Ident(name)
    case BinOp(op, _, _) => Operator(op)
  }

  /** `ts` reads as `e`. */
  ghost predicate Reads(ts: seq<Token>, e: Node) {
    exists d: Derivation :: d.Valid(0) && d.Tokens() == ts && d.Tree() == e
  }

  /** No operator that `minBP` would take stands at the head of `ts`. */
  ghost predicate Halts(ts: seq<Token>, minBP: int) {
    ts == [] || !ts[0].Operator? || BindingPower(ts[0].op) <= minBP
  }

  /** `ts` cannot be pulled into the last operand of `d`. */
  ghost predicate Closes(d: Derivation, ts: seq<Token>) {
    d.Infix? ==> Halts(ts, BindingPower(d.op))
  }

  lemma ValidBelow(d: Derivation, p: int, q: int)
    requires d.Valid(p) && q <= p
    ensures d.Valid(q)
  {
  }

  // ----- completeness: every derivation is parsed, to its own tree -----

  lemma {:induction false} ParseDerivation(d: Derivation, minBP: nat, rest: seq<Token>)
    requires d.Valid(minBP) && Closes(d, rest)
    ensures ParseExpr(d.Tokens() + rest, minBP) == ParseOperators(d.Tree(), rest, minBP)
    decreases d
  {
    var ts := d.Tokens() + rest;
    match d
    case Leaf(n) =>
      assert ts[0] == LeafToken(n) && ts[1..] == rest;
    case Bracketed(inner) =>
      assert ts[1..] == inner.Tokens() + ([RParen] + rest);
      ParseDerivation(inner, 0, [RParen] + rest);
      assert ([RParen] + rest)[1..] == rest;
      assert ParseAtom(ts) == Ok((inner.Tree(), rest));
    case Infix(op, l, r) =>
      var bp := BindingPower(op);
      var tail := [Operator(op)] + (r.Tokens() + rest);
      assert ts == l.Tokens() + tail;
      ValidBelow(l, bp - 1, minBP);
      ParseDerivation(l, minBP, tail);
      assert tail[0] == Operator(op) && tail[1..] == r.Tokens() + rest;
      ParseDerivation(r, bp, rest);
  }

  // ----- soundness: what is parsed has a derivation -----

  lemma {:induction false} ParsedExpr(ts: seq<Token>, minBP: nat, e: Node, rest: seq<Token>) returns (d: Derivation)
    requires ParseExpr(ts, minBP) == Ok((e, rest))
    ensures d.Valid(minBP) && d.Tree() == e && d.Tokens() + rest == ts
    ensures Halts(rest, minBP) && Closes(d, rest)
    decreases |ts|, 2
  {
    var (left, tail) := ParseAtom(ts).value;
    var a := ParsedAtom(ts, left, tail);
    d := ParsedOperators(a, tail, minBP, e, rest);
    assert d.Tokens() + rest == ts;
  }

  lemma {:induction false} ParsedOperators(a: Derivation, ts: seq<Token>, minBP: nat, e: Node, rest: seq<Token>)
    returns (d: Derivation)
    requires a.Valid(minBP) && Closes(a, ts)
    requires ParseOperators(a.Tree(), ts, minBP) == Ok((e, rest))
    ensures d.Valid(minBP) && d.Tree() == e && d.Tokens() + rest == a.Tokens() + ts
    ensures Halts(rest, minBP) && Closes(d, rest)
    decreases |ts|, 0
  {
    if Halts(ts, minBP) { return a; }
    var op := ts[0].op;
    var (right, tail) := ParseExpr(ts[1..], BindingPower(op)).value;
    var r := ParsedExpr(ts[1..], BindingPower(op), right, tail);
    assert a.Valid(BindingPower(op) - 1);
    var b := Infix(op, a, r);
    Regroup(a.Tokens(), r.Tokens(), tail, ts);
    d := ParsedOperators(b, tail, minBP, e, rest);
  }

  lemma Regroup(a: seq<Token>, b: seq<Token>, rest: seq<Token>, ts: seq<Token>)
    requires ts != [] && b + rest == ts[1..]
    ensures (a + [ts[0]] + b) + rest == a + ts
  {
    assert ts == [ts[0]] + ts[1..];
  }

  lemma Enclosed(inner: seq<Token>, tail: seq<Token>, ts: seq<Token>)
    requires ts != [] && tail != [] && inner + tail == ts[1..]
    ensures ([ts[0]] + inner + [tail[0]]) + tail[1..] == ts
  {
    Regroup([], inner, tail, ts);
    assert tail == [tail[0]] + tail[1..];
  }

  lemma {:induction false} ParsedAtom(ts: seq<Token>, e: Node, rest: seq<Token>) returns (d: Derivation)
    requires ParseAtom(ts) == Ok((e, rest))
    ensures !d.Infix? && d.Valid(0) && d.Tree() == e && d.Tokens() + rest == ts
    ensures forall p :: d.Valid(p)
    decreases |ts|, 1
  {
    if ts[0] == LParen {
      var (inner, tail) := ParseExpr(ts[1..], 0).value;
      var i := ParsedExpr(ts[1..], 0, inner, tail);
      d := Bracketed(i);
      Enclosed(i.Tokens(), tail, ts);
    } else {
      d := Leaf(e);
      assert ts == [ts[0]] + ts[1..];
    }
  }

  /** The parser accepts exactly the grammar, and every token is consumed. */
  lemma ParserExact(ts: seq<Token>, e: Node)
    ensures ParseTokens(ts) == Ok(e) <==> Reads(ts, e)
  {
    if ParseTokens(ts) == Ok(e) {
      var d := ParsedExpr(ts, 0, e, []);
      assert d.Tokens() + [] == d.Tokens();
    }
    if Reads(ts, e) {
      var d: Derivation :| d.Valid(0) && d.Tokens() == ts && d.Tree() == e;
      assert d.Tokens() + [] == ts;
      ParseDerivation(d, 0, []);
    }
  }

  /** No token list reads as two trees. */
  lemma GrammarUnambiguous(ts: seq<Token>, e1: Node, e2: Node)
    requires Reads(ts, e1) && Reads(ts, e2)
    ensures e1 == e2
  {
    ParserExact(ts, e1);
    ParserExact(ts, e2);
  }

  // ----- printing -----

  /** The derivation of `e` that brackets only where precedence or associativity demands it. */
  ghost function Minimal(e: Node, minBP: int): Derivation {
    if !e.BinOp? then Leaf(e)
    else
      var bp := BindingPower(e.op);
      if bp > minBP then Infix(e.op, Minimal(e.left, bp - 1), Minimal(e.right, bp))
      else Bracketed(Infix(e.op, Minimal(e.left, bp - 1), Minimal(e.right, bp)))
  }

  /** `e` with the fewest brackets. */
  ghost function Print(e: Node): seq<Token> {
    Minimal(e, 0).Tokens()
  }

  lemma {:induction false} MinimalReads(e: Node, minBP: int)
    ensures Minimal(e, minBP).Valid(minBP) && Minimal(e, minBP).Tree() == e
  {
    if e.BinOp? {
      MinimalReads(e.left, BindingPower(e.op) - 1);
      MinimalReads(e.right, BindingPower(e.op));
    }
  }

  /** Nothing shorter than the minimal printing reads as the same tree. */
  lemma {:induction false} MinimalIsShortest(d: Derivation, minBP: int)
    requires d.Valid(minBP)
    ensures |Minimal(d.Tree(), minBP).Tokens()| <= |d.Tokens()|
    decreases d
  {
    match d
    case Leaf(_) =>
    case Bracketed(inner) =>
      MinimalIsShortest(inner, 0);
      LooserContext(inner.Tree(), 0, minBP);
    case Infix(op, l, r) =>
      MinimalIsShortest(l, BindingPower(op) - 1);
      MinimalIsShortest(r, BindingPower(op));
  }

  /** A context costs a tree at most one pair of brackets. */
  lemma LooserContext(e: Node, p: int, q: int)
    ensures |Minimal(e, q).Tokens()| <= |Minimal(e, p).Tokens()| + 2
  {
  }

  lemma ParserInvertsPrinter(e: Node)
    ensures ParseTokens(Print(e)) == Ok(e)
    ensures forall ts :: Reads(ts, e) ==> |Print(e)| <= |ts|
  {
    MinimalReads(e, 0);
    ParserExact(Print(e), e);
    forall ts | Reads(ts, e) ensures |Print(e)| <= |ts| {
      var d: Derivation :| d.Valid(0) && d.Tokens() == ts && d.Tree() == e;
      MinimalIsShortest(d, 0);
    }
  }

  /** Texts: parsing accepts exactly the spelled grammar. */
  lemma ParseExact(text: string, e: Node, float: FloatParser)
    ensures Parse(text, float) == Ok(e) <==> exists ts :: Lexes(text, ts, float) && Reads(ts, e)
  {
    if Parse(text, float) == Ok(e) {
      var ts := Lex(text, float).value;
      LexExact(text, ts, float);
      ParserExact(ts, e);
      assert Lexes(text, ts, float) && Reads(ts, e);
    }
    if exists ts :: Lexes(text, ts, float) && Reads(ts, e) {
      var ts :| Lexes(text, ts, float) && Reads(ts, e);
      LexExact(text, ts, float);
      ParserExact(ts, e);
    }
  }

  ghost predicate ExpressibleTree(e: Node, float: FloatParser) {
    if e.BinOp? then ExpressibleTree(e.left, float) && ExpressibleTree(e.right, float)
    else Expressible(LeafToken(e), float)
  }

  lemma {:induction false} PrintExpressible(e: Node, minBP: int, float: FloatParser)
    requires ExpressibleTree(e, float)
    ensures forall t :: t in Minimal(e, minBP).Tokens() ==> Expressible(t, float)
  {
    assert Spells("(", LParen, float) && Spells(")", RParen, float);
    if e.BinOp? {
      assert Spells(OpText(e.op), Operator(e.op), float);
      PrintExpressible(e.left, BindingPower(e.op) - 1, float);
      PrintExpressible(e.right, BindingPower(e.op), float);
    }
  }

  /** Writing a tree down as text and parsing it gives the tree back. */
  lemma TextRoundTrip(e: Node, float: FloatParser)
    requires ExpressibleTree(e, float)
    ensures (forall t :: t in Print(e) ==> Expressible(t, float)) && Parse(Written(Print(e), float), float) == Ok(e)
  {
    PrintExpressible(e, 0, float);
    WrittenLexes(Print(e), float);
    ParserInvertsPrinter(e);
    assert Print(e) != [];
  }
}

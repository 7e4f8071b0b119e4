/** Which operator binds tighter, stated by the trees that texts without brackets get. */
module FilterPrecedence {
  import opened Results
  import opened FilterLexer
  import opened FilterParser

  /** The operators from the loosest to the tightest; those of one class group from the left. */
  const CLASSES: seq<set<Op>> :=
    [{Or}, {And}, {Eq, Ne, Like}, {Lt, Le, Gt, Ge}, {Add, Sub}, {Mul, Div}]

  /** q stands in a later class than p. */
  ghost predicate Later(p: Op, q: Op) {
    exists i, j :: 0 <= i < j < |CLASSES| && p in CLASSES[i] && q in CLASSES[j]
  }

  predicate IsOperand(t: Token) {
    t.Number? || t.Text? || t.Ident?
  }

  function Operand(t: Token): Node
    requires IsOperand(t)
  {
    match t
    case Number(num) => Constant(num)
    case Text(text) => Literal(text)
    case Ident(name) => Var(name)
  }

  lemma ClassOf(op: Op) returns (i: nat)
    ensures i < |CLASSES| && op in CLASSES[i] && BindingPower(op) == i + 1
    ensures forall j :: 0 <= j < |CLASSES| && op in CLASSES[j] ==> j == i
  {
    i := match op
         case Or => 0
         case And => 1
         case Eq => 2 case Ne => 2 case Like => 2
         case Lt => 3 case Le => 3 case Gt => 3 case Ge => 3
         case Add => 4 case Sub => 4
         case Mul => 5 case Div => 5;
  }

  lemma LaterBindsTighter(p: Op, q: Op)
    ensures Later(p, q) <==> BindingPower(p) < BindingPower(q)
  {
    var i := ClassOf(p);
    var j := ClassOf(q);
    if Later(p, q) {
      var k, l :| 0 <= k < l < |CLASSES| && p in CLASSES[k] && q in CLASSES[l];
    }
  }

  /** An operand at the end, or before an operator that is not taken. */
  lemma OperandAlone(x: Token, rest: seq<Token>, minBP: nat)
    requires IsOperand(x)
    requires rest == [] || (rest[0].Operator? && BindingPower(rest[0].op) <= minBP)
    ensures ParseExpr([x] + rest, minBP) == Ok((Operand(x), rest))
  {
    assert ([x] + rest)[1..] == rest;
  }

  /** Two operands, of which the operator is taken, at the end or before an operator that is not. */
  lemma PairAlone(x: Token, p: Op, y: Token, rest: seq<Token>, minBP: nat)
    requires IsOperand(x) && IsOperand(y) && BindingPower(p) > minBP
    requires rest == [] || (rest[0].Operator? && BindingPower(rest[0].op) <= BindingPower(p))
    ensures ParseExpr([x] + ([Operator(p)] + ([y] + rest)), minBP)
            == ParseOperators(BinOp(p, Operand(x), Operand(y)), rest, minBP)
  {
    var tail := [Operator(p)] + ([y] + rest);
    assert ([x] + tail)[1..] == tail && tail[1..] == [y] + rest;
    OperandAlone(y, rest, BindingPower(p));
  }

  /** The five tokens, one operator after the other. */
  function Five(x: Token, p: Op, y: Token, q: Op, z: Token): seq<Token> {
    [x] + ([Operator(p)] + ([y] + ([Operator(q)] + ([z] + []))))
  }

  lemma SecondTakesMiddle(x: Token, p: Op, y: Token, q: Op, z: Token)
    requires IsOperand(x) && IsOperand(y) && IsOperand(z) && BindingPower(p) < BindingPower(q)
    ensures ParseExpr(Five(x, p, y, q, z), 0)
            == Ok((BinOp(p, Operand(x), BinOp(q, Operand(y), Operand(z))), []))
  {
    var tail := [Operator(p)] + ([y] + ([Operator(q)] + ([z] + [])));
    var right := BinOp(q, Operand(y), Operand(z));
    PairAlone(y, q, z, [], BindingPower(p));
    assert tail[1..] == [y] + ([Operator(q)] + ([z] + []));
    assert ParseOperators(Operand(x), tail, 0) == Ok((BinOp(p, Operand(x), right), []));
    assert ([x] + tail)[1..] == tail;
  }

  lemma FirstTakesMiddle(x: Token, p: Op, y: Token, q: Op, z: Token)
    requires IsOperand(x) && IsOperand(y) && IsOperand(z) && BindingPower(p) >= BindingPower(q)
    ensures ParseExpr(Five(x, p, y, q, z), 0)
            == Ok((BinOp(q, BinOp(p, Operand(x), Operand(y)), Operand(z)), []))
  {
    var last, left := [Operator(q)] + ([z] + []), BinOp(p, Operand(x), Operand(y));
    PairAlone(x, p, y, last, 0);
    OperandAlone(z, [], BindingPower(q));
    assert last[1..] == [z] + [];
    assert ParseOperators(left, last, 0) == Ok((BinOp(q, left, Operand(z)), []));
  }

  /**
   Of two operators between three operands the one of the later class takes the middle operand; within one class,
   and when the first stands later, the first does.
  */
  lemma ThreeOperands(x: Token, p: Op, y: Token, q: Op, z: Token)
    requires IsOperand(x) && IsOperand(y) && IsOperand(z)
    ensures ParseTokens([x, Operator(p), y, Operator(q), z])
            == Ok(if Later(p, q) then BinOp(p, Operand(x), BinOp(q, Operand(y), Operand(z)))
                  else BinOp(q, BinOp(p, Operand(x), Operand(y)), Operand(z)))
  {
    LaterBindsTighter(p, q);
    assert [x, Operator(p), y, Operator(q), z] == Five(x, p, y, q, z);
    if Later(p, q) { SecondTakesMiddle(x, p, y, q, z); } else { FirstTakesMiddle(x, p, y, q, z); }
  }
}

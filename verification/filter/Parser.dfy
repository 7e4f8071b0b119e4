/** The Pratt parser: tokens to a syntax tree, by precedence climbing. */
module FilterParser {
  import opened Results
  import opened FilterLexer

  datatype Node =
    | Constant(num: Num)
    | Literal(text: string)
    | Var(name: string)
    | BinOp(op: Op, left: Node, right: Node)

  datatype ParseError =
    | Lexical(error: LexError)
    | EmptyExpression
    | UnexpectedEnd
    | UnexpectedToken
    | MissingParen
    | TrailingToken

  function BindingPower(op: Op): (bp: nat)
    ensures 1 <= bp <= 6
  {
    match op
    case Or => 1
    case And => 2
    case Eq => 3 case Ne => 3 case Like => 3
    case Lt => 4 case Le => 4 case Gt => 4 case Ge => 4
    case Add => 5 case Sub => 5
    case Mul => 6 case Div => 6
  }

  // ----- the parser as functions of the remaining tokens -----

  type Parsed = Result<(Node, seq<Token>), ParseError>

  /** An operand followed by every operator that binds tighter than `minBP`. */
  function ParseExpr(ts: seq<Token>, minBP: nat): (r: Parsed)
    ensures r.Ok? ==> |r.value.1| < |ts|
    decreases |ts|, 2
  {
    var (left, rest) :- ParseAtom(ts);
    ParseOperators(left, rest, minBP)
  }

  function ParseOperators(left: Node, ts: seq<Token>, minBP: nat): (r: Parsed)
    ensures r.Ok? ==> |r.value.1| <= |ts|
    decreases |ts|, 0
  {
    if ts == [] || !ts[0].Operator? || BindingPower(ts[0].op) <= minBP then Ok((left, ts))
    else
      var (right, rest) :- ParseExpr(ts[1..], BindingPower(ts[0].op));
      ParseOperators(BinOp(ts[0].op, left, right), rest, minBP)
  }

  function ParseAtom(ts: seq<Token>): (r: Parsed)
    ensures r.Ok? ==> |r.value.1| < |ts|
    decreases |ts|, 1
  {
    if ts == [] then Err(UnexpectedEnd)
    else match ts[0]
      case Number(num) => Ok((Constant(num), ts[1..]))
      case Text(text) => Ok((Literal(text), ts[1..]))
      case Ident(name) => Ok((Var(name), ts[1..]))
      case LParen =>
        var (inner, rest) :- ParseExpr(ts[1..], 0);
        if rest == [] || rest[0] != RParen then Err(MissingParen) else Ok((inner, rest[1..]))
      case RParen => Err(UnexpectedToken)
      case Operator(_) => Err(UnexpectedToken)
  }

  function ParseTokens(ts: seq<Token>): Result<Node, ParseError> {
    var (node, rest) :- ParseExpr(ts, 0);
    if rest != [] then Err(TrailingToken) else Ok(node)
  }

  /** A filter expression text to its tree. */
  function Parse(text: string, float: FloatParser): Result<Node, ParseError> {
    match Lex(text, float)
    case Err(e) => Err(Lexical(e))
    case Ok(ts) => if ts == [] then Err(EmptyExpression) else ParseTokens(ts)
  }

  // ----- the parser that advances a position -----

  class Parser {
    const tokens: seq<Token>
    var pos: nat

    constructor (tokens: seq<Token>)
      ensures this.tokens == tokens && pos == 0
    {
      this.tokens := tokens;
      pos := 0;
    }

    ghost predicate Valid()
      reads this
    {
      pos <= |tokens|
    }

    /** What is left to parse. */
    ghost function Rest(): seq<Token>
      reads this
      requires Valid()
    {
      tokens[pos..]
    }

    /** The result `r` and the tokens now left are those of `spec`. */
    ghost predicate Agrees(r: Result<Node, ParseError>, spec: Parsed)
      reads this
    {
      && Valid()
      && (spec.Err? ==> r == Err(spec.error))
      && (spec.Ok? ==> r == Ok(spec.value.0) && Rest() == spec.value.1)
    }

    method ParseExpression(minBP: nat) returns (r: Result<Node, ParseError>)
      requires Valid()
      modifies this
      ensures Agrees(r, ParseExpr(old(Rest()), minBP)) && old(pos) <= pos
      decreases |tokens| - pos, 1
    {
      ghost var all := Rest();
      var first := ParseOperand();
      if first.Err? { return first; }
      var left := first.value;
      while pos < |tokens| && tokens[pos].Operator? && BindingPower(tokens[pos].op) > minBP
        invariant Valid() && old(pos) < pos
        invariant ParseExpr(all, minBP) == ParseOperators(left, Rest(), minBP)
        decreases |tokens| - pos
      {
        var op := tokens[pos].op;
        assert Rest()[1..] == tokens[pos + 1..];
        pos := pos + 1;
        var right := ParseExpression(BindingPower(op));
        if right.Err? { return right; }
        left := BinOp(op, left, right.value);
      }
      r := Ok(left);
    }

    method ParseOperand() returns (r: Result<Node, ParseError>)
      requires Valid()
      modifies this
      ensures Agrees(r, ParseAtom(old(Rest()))) && old(pos) <= pos
      decreases |tokens| - pos, 0
    {
      if pos >= |tokens| { return Err(UnexpectedEnd); }
      assert Rest()[1..] == tokens[pos + 1..];
      match tokens[pos]
      case Number(num) =>
        pos := pos + 1;
        r := Ok(Constant(num));
      case Text(text) =>
        pos := pos + 1;
        r := Ok(Literal(text));
      case Ident(name) =>
        pos := pos + 1;
        r := Ok(Var(name));
      case LParen =>
        pos := pos + 1;
        var inner := ParseExpression(0);
        if inner.Err? { return inner; }
        if pos >= |tokens| || tokens[pos] != RParen { return Err(MissingParen); }
        assert Rest()[1..] == tokens[pos + 1..];
        pos := pos + 1;
        r := inner;
      case _ =>
        r := Err(UnexpectedToken);
    }

    method ParseAll() returns (r: Result<Node, ParseError>)
      requires Valid() && pos == 0
      modifies this
      ensures r == ParseTokens(tokens)
    {
      assert Rest() == tokens;
      r := ParseExpression(0);
      if r.Ok? && pos < |tokens| { r := Err(TrailingToken); }
    }
  }

  method ParseText(text: string, float: FloatParser) returns (r: Result<Node, ParseError>)
    ensures r == Parse(text, float)
  {
    var lexed := Tokenize(text, float);
    if lexed.Err? { return Err(Lexical(lexed.error)); }
    if lexed.value == [] { return Err(EmptyExpression); }
    var parser := new Parser(lexed.value);
    r := parser.ParseAll();
  }
}

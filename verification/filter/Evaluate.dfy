/** The in-memory back end: evaluating a filter tree over one record's values. */
module FilterEvaluate {
  import opened Results
  import opened Texts
  import opened FilterLexer
  import opened FilterParser

  datatype Value = Int(i: int) | Real(r: real) | Bool(b: bool) | Str(s: string)

  type Record = map<string, Value>

  /**
   What the Go and SQLite runtimes do with floats and text outside ASCII, as parameters: rounding to
   float64, strconv.ParseFloat after trimming, the repr of a float, strings.ToLower, and SQLite's
   text of a REAL and number of a TEXT.
  */
  datatype Host = Host(
    round: real -> real,
    float: FloatParser,
    repr: real -> string,
    lower: string -> string,
    sqlRealText: real -> string,
    sqlTextNumber: string -> real)

  datatype EvalError = MissingVariable(name: string) | NonNumericOperand | DivisionByZero

  predicate IsNumeric(v: Value) {
    !v.Str?
  }

  function AsBool(v: Value): bool {
    match v
    case Int(i) => i != 0
    case Real(r) => r != 0.0
    case Bool(b) => b
    case Str(s) => s != ""
  }

  function ToInt(v: Value): int
    requires v.Int? || v.Bool?
  {
    if v.Int? then v.i else if v.b then 1 else 0
  }

  function ToFloat(v: Value, h: Host): real
    requires IsNumeric(v)
  {
    if v.Int? then h.round(v.i as real)
    else if v.Real? then v.r
    else if v.b then 1.0 else 0.0
  }

  /** int64 arithmetic keeps the low 64 bits. */
  function Wrap64(n: int): int {
    (n + 0x8000_0000_0000_0000) % 0x1_0000_0000_0000_0000 - 0x8000_0000_0000_0000
  }

  /** Division that truncates toward zero. */
  function TruncDiv(a: int, b: int): int
    requires b != 0
  {
    if (a < 0) == (b < 0) then Abs(a) / Abs(b) else -(Abs(a) / Abs(b))
  }

  predicate IsArithmetic(op: Op) {
    op == Add || op == Sub || op == Mul || op == Div
  }

  predicate IsComparison(op: Op) {
    op == Eq || op == Ne || op == Lt || op == Le || op == Gt || op == Ge
  }

  function IntOp(op: Op, a: int, b: int): int
    requires IsArithmetic(op) && (op == Div ==> b != 0)
  {
    match op
    case Add => a + b
    case Sub => a - b
    case Mul => a * b
    case _ => TruncDiv(a, b)
  }

  /** Float arithmetic; the callers never pass a zero divisor. */
  function RealOp(op: Op, a: real, b: real): real
    requires IsArithmetic(op)
  {
    match op
    case Add => a + b
    case Sub => a - b
    case Mul => a * b
    case _ => if b == 0.0 then 0.0 else a / b
  }

  function IsZero(v: Value): bool
    requires IsNumeric(v)
  {
    match v
    case Int(i) => i == 0
    case Real(r) => r == 0.0
    case Bool(b) => !b
  }

  function Arith(op: Op, l: Value, r: Value, h: Host): Result<Value, EvalError>
    requires IsArithmetic(op)
  {
    if !IsNumeric(l) || !IsNumeric(r) then Err(NonNumericOperand)
    else if op == Div && IsZero(r) then Err(DivisionByZero)
    else if !l.Real? && !r.Real? then Ok(Int(Wrap64(IntOp(op, ToInt(l), ToInt(r)))))
    else Ok(Real(h.round(RealOp(op, ToFloat(l, h), ToFloat(r, h)))))
  }

  predicate CompareReals(op: Op, a: real, b: real)
    requires IsComparison(op)
  {
    match op
    case Eq => a == b case Ne => a != b
    case Lt => a < b case Le => a <= b
    case Gt => a > b case _ => a >= b
  }

  predicate CompareTexts(op: Op, a: string, b: string)
    requires IsComparison(op)
  {
    match op
    case Eq => a == b case Ne => a != b
    case Lt => TextLess(a, b) case Le => a == b || TextLess(a, b)
    case Gt => TextLess(b, a) case _ => a == b || TextLess(b, a)
  }

  /** Python's str(). */
  function PyStr(v: Value, h: Host): string {
    match v
    case Int(i) => FormatInt(i)
    case Real(r) => h.repr(r)
    case Bool(b) => if b then "True" else "False"
    case Str(s) => s
  }

  function FloatOf(v: Value, h: Host): Option<real> {
    if v.Str? then h.float(v.s) else Some(ToFloat(v, h))
  }

  /** Two numbers compare as floats, two strings as strings; a mixture as floats if both convert. */
  predicate Compare(op: Op, l: Value, r: Value, h: Host)
    requires IsComparison(op)
  {
    if IsNumeric(l) && IsNumeric(r) then CompareReals(op, ToFloat(l, h), ToFloat(r, h))
    else if l.Str? && r.Str? then CompareTexts(op, l.s, r.s)
    else if FloatOf(l, h).Some? && FloatOf(r, h).Some? then
      CompareReals(op, FloatOf(l, h).value, FloatOf(r, h).value)
    else CompareTexts(op, PyStr(l, h), PyStr(r, h))
  }

  predicate ContainsFold(l: Value, r: Value, h: Host) {
    Contains(h.lower(PyStr(l, h)), h.lower(PyStr(r, h)))
  }

  function Evaluate(e: Node, env: Record, h: Host): Result<Value, EvalError> {
    match e
    case Constant(num) => Ok(if num.Whole? then Int(num.n) else Real(num.r))
    case Literal(text) => Ok(Str(text))
    case Var(name) => if name in env then Ok(env[name]) else Err(MissingVariable(name))
    case BinOp(op, left, right) =>
      var l :- Evaluate(left, env, h);
      if op == And && !AsBool(l) then Ok(Bool(false))
      else if op == Or && AsBool(l) then Ok(Bool(true))
      else
        var r :- Evaluate(right, env, h);
        if op == And || op == Or then Ok(Bool(AsBool(r)))
        else if IsArithmetic(op) then Arith(op, l, r, h)
        else if op == Like then Ok(Bool(ContainsFold(l, r, h)))
        else Ok(Bool(Compare(op, l, r, h)))
  }

  // ----- when evaluation succeeds -----

  predicate Decides(op: Op, l: Value) {
    (op == And && !AsBool(l)) || (op == Or && AsBool(l))
  }

  /** Arithmetic has numbers on both sides, and does not divide by zero. */
  predicate Operates(op: Op, l: Value, r: Value) {
    IsArithmetic(op) ==> IsNumeric(l) && IsNumeric(r) && (op == Div ==> !IsZero(r))
  }

  /** The guards evaluation meets on its way, as far as short circuits let it go, all hold. */
  predicate Runs(e: Node, env: Record, h: Host) {
    match e
    case Constant(_) => true
    case Literal(_) => true
    case Var(name) => name in env
    case BinOp(op, left, right) =>
      var l, r := Evaluate(left, env, h), Evaluate(right, env, h);
      && Runs(left, env, h)
      && (l.Ok? && !Decides(op, l.value) ==>
            Runs(right, env, h) && (r.Ok? ==> Operates(op, l.value, r.value)))
  }

  /** Evaluation fails exactly at a missing variable, at arithmetic on a string, or at a zero divisor it reaches. */
  lemma {:induction false} EvaluatesIff(e: Node, env: Record, h: Host)
    ensures Evaluate(e, env, h).Ok? <==> Runs(e, env, h)
  {
    if e.BinOp? {
      EvaluatesIff(e.left, env, h);
      EvaluatesIff(e.right, env, h);
    }
  }

  /** What kind of value a field or filter has. */
  datatype Kind = NumberKind | TextKind

  type Kinds = map<string, Kind>

  predicate NonzeroConstant(e: Node) {
    e.Constant? && (if e.num.Whole? then e.num.n != 0 else e.num.r != 0.0)
  }

  /** The kind of a filter, read off the kinds of its fields; None where evaluation might fail. */
  function KindOf(e: Node, kinds: Kinds): Option<Kind> {
    match e
    case Constant(_) => Some(NumberKind)
    case Literal(_) => Some(TextKind)
    case Var(name) => if name in kinds then Some(kinds[name]) else None
    case BinOp(op, left, right) =>
      var l, r := KindOf(left, kinds), KindOf(right, kinds);
      if l.None? || r.None? then None
      else if !IsArithmetic(op) then Some(NumberKind)
      else if l == r == Some(NumberKind) && (op == Div ==> NonzeroConstant(right)) then Some(NumberKind)
      else None
  }

  /** The record has every one of the fields, with a value of its kind. */
  ghost predicate HasKinds(env: Record, kinds: Kinds) {
    forall name :: name in kinds ==> name in env && (env[name].Str? <==> kinds[name].TextKind?)
  }

  /** A filter that has a kind runs on every record of those field kinds, and gives a value of that kind. */
  lemma {:induction false} TypedRuns(e: Node, kinds: Kinds, env: Record, h: Host)
    requires HasKinds(env, kinds) && KindOf(e, kinds).Some?
    ensures Runs(e, env, h) && Evaluate(e, env, h).Ok?
    ensures Evaluate(e, env, h).value.Str? <==> KindOf(e, kinds) == Some(TextKind)
  {
    if e.BinOp? {
      TypedRuns(e.left, kinds, env, h);
      TypedRuns(e.right, kinds, env, h);
    }
  }

  /** Whether the active-stream list keeps a record: any error excludes it. */
  predicate Keeps(e: Node, env: Record, h: Host) {
    var v := Evaluate(e, env, h);
    v.Ok? && AsBool(v.value)
  }
}

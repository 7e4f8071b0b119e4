/**
 What SQLite computes for a compiled fragment, with NULL and three-valued logic, and how that
 relates to evaluating the same filter in memory.
*/
module FilterMeaning {
  import opened Lists
  import opened Results
  import opened Texts
  import opened FilterLexer
  import opened FilterParser
  import opened FilterEvaluate
  import opened FilterSql
  import opened ThreeValued

  datatype SqlValue = Null | SqlInt(i: int) | SqlReal(r: real) | SqlText(s: string)

  /** The value of each column expression in one joined row. */
  type Row = map<string, SqlValue>

  function AsciiLower(s: string): string {
    if s == "" then ""
    else [if 'A' <= s[0] <= 'Z' then (s[0] as int + 32) as char else s[0]] + AsciiLower(s[1..])
  }

  function OfBool(b: bool): SqlValue {
    SqlInt(if b then 1 else 0)
  }

  function Truth(v: SqlValue, h: Host): Bool3 {
    match v
    case Null => None
    case SqlInt(i) => Some(i != 0)
    case SqlReal(r) => Some(r != 0.0)
    case SqlText(s) => Some(h.sqlTextNumber(s) != 0.0)
  }

  function OfTruth(b: Bool3): SqlValue {
    if b.None? then Null else OfBool(b.value)
  }

  function Number(v: SqlValue, h: Host): real
    requires !v.Null?
  {
    match v
    case SqlInt(i) => h.round(i as real)
    case SqlReal(r) => r
    case SqlText(s) => h.sqlTextNumber(s)
  }

  /** Integer arithmetic stays integer while it fits 64 bits; division by zero is NULL. */
  function SqlArith(op: Op, a: SqlValue, b: SqlValue, h: Host): SqlValue
    requires IsArithmetic(op)
  {
    if a.Null? || b.Null? then Null
    else if a.SqlInt? && b.SqlInt? && op == Div && b.i == 0 then Null
    else if a.SqlInt? && b.SqlInt? && IsInt64(IntOp(op, a.i, b.i)) then SqlInt(IntOp(op, a.i, b.i))
    else if op == Div && Number(b, h) == 0.0 then Null
    else SqlReal(h.round(RealOp(op, Number(a, h), Number(b, h))))
  }

  /** Numbers compare exactly, texts byte-wise, and every number is below every text. */
  function SqlCompare(op: Op, a: SqlValue, b: SqlValue): SqlValue
    requires IsComparison(op)
  {
    if a.Null? || b.Null? then Null
    else if a.SqlText? && b.SqlText? then OfBool(CompareTexts(op, a.s, b.s))
    else if a.SqlText? then OfBool(CompareReals(op, 1.0, 0.0))
    else if b.SqlText? then OfBool(CompareReals(op, 0.0, 1.0))
    else OfBool(CompareReals(op, Exact(a), Exact(b)))
  }

  function Exact(v: SqlValue): real
    requires v.SqlInt? || v.SqlReal?
  {
    if v.SqlInt? then v.i as real else v.r
  }

  function TextOf(v: SqlValue, h: Host): string
    requires !v.Null?
  {
    match v
    case SqlInt(i) => FormatInt(i)
    case SqlReal(r) => h.sqlRealText(r)
    case SqlText(s) => s
  }

  /** instr: one past the characters before the first occurrence, 0 if there is none. */
  function Position(s: string, p: string): (n: nat)
    ensures n > 0 <==> Contains(s, p)
  {
    if p <= s then 1
    else if s == "" then 0
    else
      var n := Position(s[1..], p);
      if n == 0 then 0 else n + 1
  }

  function SqlOperator(op: Op, a: SqlValue, b: SqlValue, h: Host): SqlValue {
    if op == And then OfTruth(And3(Truth(a, h), Truth(b, h)))
    else if op == Or then OfTruth(Or3(Truth(a, h), Truth(b, h)))
    else if IsArithmetic(op) then SqlArith(op, a, b, h)
    else if IsComparison(op) then SqlCompare(op, a, b)
    else Null
  }

  function CastTo(ty: SqlType, v: SqlValue, h: Host): SqlValue {
    if v.Null? then Null else if ty == AsText then SqlText(TextOf(v, h)) else SqlReal(Number(v, h))
  }

  function Apply(fn: Fn, v: SqlValue, w: SqlValue, h: Host): SqlValue {
    match fn
    case InstrFn => if v.Null? || w.Null? then Null else SqlInt(Position(TextOf(v, h), TextOf(w, h)))
    case CoalesceFn => if v.Null? then w else v
    case NullIfFn => if SqlCompare(Eq, v, w) == OfBool(true) then Null else v
  }

  /** SQLite's value of an expression. Each "?" takes the next parameter; the rest is returned. */
  function Eval(t: SqlExpr, row: Row, params: seq<string>, h: Host): (SqlValue, seq<string>) {
    match t
    case Atom(x) =>
      (match x
       case Column(c) => (if c in row then row[c] else Null, params)
       case NumberText(num) => (if num.Whole? then SqlInt(num.n) else SqlReal(num.r), params)
       case Mark => if params == [] then (Null, []) else (SqlText(params[0]), params[1..])
       case _ => (Null, params))
    case Paren(a) => Eval(a, row, params, h)
    case Binary(op, l, r) =>
      var (a, rest) := Eval(l, row, params, h);
      var (b, rest') := Eval(r, row, rest, h);
      (SqlOperator(op, a, b, h), rest')
    case Lower(a) =>
      var (v, rest) := Eval(a, row, params, h);
      (if v.Null? then Null else SqlText(AsciiLower(TextOf(v, h))), rest)
    case Cast(ty, a) =>
      var (v, rest) := Eval(a, row, params, h);
      (CastTo(ty, v, h), rest)
    case Call(fn, a, b) =>
      var (v, rest) := Eval(a, row, params, h);
      var (w, rest') := Eval(b, row, rest, h);
      (Apply(fn, v, w, h), rest')
  }

  // ----- where the two back ends mean the same -----

  predicate IsAscii(s: string) {
    forall k :: 0 <= k < |s| ==> s[k] < 128 as char
  }

  /** Integers float64 holds exactly. */
  predicate Small(n: int) {
    -0x20_0000_0000_0000 <= n <= 0x20_0000_0000_0000
  }

  /** What is assumed of the runtimes: small integers convert exactly, ASCII lowers as usual. */
  ghost predicate Faithful(h: Host) {
    && (forall n: int {:trigger h.round(n as real)} :: Small(n) ==> h.round(n as real) == n as real)
    && (forall s: string {:trigger h.lower(s)} :: IsAscii(s) ==> h.lower(s) == AsciiLower(s))
  }

  function Stored(v: Value): SqlValue {
    match v
    case Int(i) => SqlInt(i)
    case Real(r) => SqlReal(r)
    case Bool(b) => OfBool(b)
    case Str(s) => SqlText(s)
  }

  /** The fields that evaluating a filter over a record looks at; what a short circuit skips is not among them. */
  function FieldsRead(e: Node, env: Record, h: Host): set<string> {
    match e
    case Constant(_) => {}
    case Literal(_) => {}
    case Var(name) => {name}
    case BinOp(op, left, right) =>
      var l := Evaluate(left, env, h);
      FieldsRead(left, env, h)
      + if (op == And || op == Or) && l.Ok? && AsBool(l.value) == (op == Or) then {} else FieldsRead(right, env, h)
  }

  /** The row holds, in each given field's column, the value the record has for the field. */
  ghost predicate SameData(fields: set<string>, env: Record, row: Row, names: NameMap) {
    forall name :: name in fields && name in env && name in names ==>
      names[name] in row && row[names[name]] == Stored(env[name])
  }

  predicate PortableText(v: Value) {
    v.Int? || (v.Str? && IsAscii(v.s))
  }

  /**
   The operands a filter actually evaluates suit its operators: integers stay small, a comparison
   has two numbers or two strings, a string is never a condition, "~" sees ASCII or integers.
  */
  predicate Portable(e: Node, env: Record, h: Host) {
    match e
    case Constant(num) => num.Whole? ==> Small(num.n)
    case Literal(_) => true
    case Var(name) => name in env && env[name].Int? ==> Small(env[name].i)
    case BinOp(op, left, right) =>
      var l, r := Evaluate(left, env, h), Evaluate(right, env, h);
      && Portable(left, env, h)
      && (l.Ok? ==>
        if op == And || op == Or then
          !l.value.Str? && (AsBool(l.value) == (op == And) ==>
            Portable(right, env, h) && (r.Ok? ==> !r.value.Str?))
        else
          Portable(right, env, h) && (r.Ok? ==> PortableOperands(op, l.value, r.value)))
  }

  predicate PortableOperands(op: Op, l: Value, r: Value) {
    if IsArithmetic(op) then
      !l.Str? && !r.Str? && !l.Real? && !r.Real? && (op == Div ==> !IsZero(r)) ==> Small(IntOp(op, ToInt(l), ToInt(r)))
    else if IsComparison(op) then l.Str? == r.Str?
    else PortableText(l) && PortableText(r)
  }

  lemma {:induction false} PortableIsSmall(e: Node, env: Record, h: Host)
    requires Portable(e, env, h) && Evaluate(e, env, h).Ok? && Evaluate(e, env, h).value.Int?
    ensures Small(Evaluate(e, env, h).value.i)
  {
  }

  /** What the SQL emitted for an operator computes from its operands' values. */
  function Emitted(op: Op, a: SqlValue, b: SqlValue, h: Host): SqlValue {
    if op != Like then SqlOperator(op, a, b, h)
    else if a.Null? || b.Null? then Null
    else OfBool(Contains(AsciiLower(TextOf(a, h)), AsciiLower(TextOf(b, h))))
  }

  lemma EvalFolded(l: SqlExpr, row: Row, params: seq<string>, h: Host)
    ensures var (a, rest) := Eval(l, row, params, h);
            && Eval(Lower(l), row, params, h) == (if a.Null? then Null else SqlText(AsciiLower(TextOf(a, h))), rest)
            && Eval(Lower(Cast(AsText, l)), row, params, h)
               == (if a.Null? then Null else SqlText(AsciiLower(TextOf(a, h))), rest)
  {
    var (a, rest) := Eval(l, row, params, h);
    assert Eval(Cast(AsText, l), row, params, h) == (if a.Null? then Null else SqlText(TextOf(a, h)), rest);
  }

  lemma EvalPositive(call: SqlExpr, row: Row, params: seq<string>, h: Host)
    ensures var (v, rest) := Eval(call, row, params, h);
            Eval(Paren(Binary(Gt, call, Atom(NumberText(Whole(0))))), row, params, h)
                == (SqlCompare(Gt, v, SqlInt(0)), rest)
  {
    var (v, rest) := Eval(call, row, params, h);
    assert Eval(Binary(Gt, call, Atom(NumberText(Whole(0)))), row, params, h) == (SqlCompare(Gt, v, SqlInt(0)), rest);
  }

  lemma EvalLike(l: SqlExpr, r: SqlExpr, row: Row, params: seq<string>, h: Host)
    ensures var (a, rest) := Eval(l, row, params, h);
            var (b, rest') := Eval(r, row, rest, h);
            Eval(Paren(Binary(Gt, Call(InstrFn, Lower(Cast(AsText, l)), Lower(r)), Atom(NumberText(Whole(0))))),
                 row, params, h)
            == (Emitted(Like, a, b, h), rest')
  {
    EvalFolded(l, row, params, h);
    EvalFolded(r, row, Eval(l, row, params, h).1, h);
    EvalPositive(Call(InstrFn, Lower(Cast(AsText, l)), Lower(r)), row, params, h);
  }

  lemma EvalBracketed(op: Op, l: SqlExpr, r: SqlExpr, row: Row, params: seq<string>, h: Host)
    ensures var (a, rest) := Eval(l, row, params, h);
            var (b, rest') := Eval(r, row, rest, h);
            Eval(Paren(Binary(op, l, r)), row, params, h) == (SqlOperator(op, a, b, h), rest')
  {
    var (a, rest) := Eval(l, row, params, h);
    var (b, rest') := Eval(r, row, rest, h);
    assert Eval(Binary(op, l, r), row, params, h) == (SqlOperator(op, a, b, h), rest');
  }

  lemma EvalCompiled(op: Op, left: Node, right: Node, names: NameMap, row: Row, params: seq<string>, h: Host)
    requires KnownNames(left, names) && KnownNames(right, names)
    ensures var (a, rest) := Eval(Compiled(left, names), row, params, h);
            var (b, rest') := Eval(Compiled(right, names), row, rest, h);
            Eval(Compiled(BinOp(op, left, right), names), row, params, h) == (Emitted(op, a, b, h), rest')
  {
    var l, r := Compiled(left, names), Compiled(right, names);
    if op == Like {
      EvalLike(l, r, row, params, h);
    } else {
      EvalBracketed(op, l, r, row, params, h);
    }
  }

  /** Every "?" of the fragment takes one string literal of the tree, in order, evaluated or not. */
  lemma {:induction false} TakesItsStrings(e: Node, names: NameMap, row: Row, extra: seq<string>, h: Host)
    requires KnownNames(e, names)
    ensures Eval(Compiled(e, names), row, Strings(e) + extra, h).1 == extra
    decreases e
  {
    if e.BinOp? {
      assert Strings(e) + extra == Strings(e.left) + (Strings(e.right) + extra);
      TakesItsStrings(e.left, names, row, Strings(e.right) + extra, h);
      TakesItsStrings(e.right, names, row, extra, h);
      EvalCompiled(e.op, e.left, e.right, names, row, Strings(e) + extra, h);
    }
  }

  lemma ArithAgrees(op: Op, l: Value, r: Value, h: Host)
    requires Faithful(h) && IsArithmetic(op) && PortableOperands(op, l, r)
    requires Arith(op, l, r, h).Ok?
    requires (l.Int? ==> Small(l.i)) && (r.Int? ==> Small(r.i))
    ensures SqlArith(op, Stored(l), Stored(r), h) == Stored(Arith(op, l, r, h).value)
  {
    if !l.Real? && !r.Real? {
      WholesAgree(op, l, r, h);
    } else {
      FloatsAgree(op, l, r, h);
    }
  }

  lemma WholesAgree(op: Op, l: Value, r: Value, h: Host)
    requires IsArithmetic(op) && PortableOperands(op, l, r) && !l.Real? && !r.Real? && Arith(op, l, r, h).Ok?
    ensures SqlArith(op, Stored(l), Stored(r), h) == Stored(Arith(op, l, r, h).value)
  {
    var n := IntOp(op, ToInt(l), ToInt(r));
    assert Small(n) && Wrap64(n) == n;
  }

  lemma FloatsAgree(op: Op, l: Value, r: Value, h: Host)
    requires Faithful(h) && IsArithmetic(op) && (l.Real? || r.Real?) && Arith(op, l, r, h).Ok?
    requires (l.Int? ==> Small(l.i)) && (r.Int? ==> Small(r.i))
    ensures SqlArith(op, Stored(l), Stored(r), h) == Stored(Arith(op, l, r, h).value)
  {
    assert h.round(0 as real) == 0.0 && h.round(1 as real) == 1.0;
  }

  lemma CompareAgrees(op: Op, l: Value, r: Value, h: Host)
    requires Faithful(h) && IsComparison(op) && l.Str? == r.Str?
    requires (l.Int? ==> Small(l.i)) && (r.Int? ==> Small(r.i))
    ensures SqlCompare(op, Stored(l), Stored(r)) == OfBool(Compare(op, l, r, h))
  {
    if !l.Str? {
      assert ToFloat(l, h) == Exact(Stored(l)) && ToFloat(r, h) == Exact(Stored(r));
    }
  }

  lemma {:induction false} DigitTextAscii(n: nat)
    ensures IsAscii(DigitText(n))
  {
    if n >= 10 { DigitTextAscii(n / 10); }
  }

  lemma LikeAgrees(l: Value, r: Value, h: Host)
    requires Faithful(h) && PortableText(l) && PortableText(r)
    ensures Contains(AsciiLower(TextOf(Stored(l), h)), AsciiLower(TextOf(Stored(r), h))) == ContainsFold(l, r, h)
  {
    if l.Int? { DigitTextAscii(Abs(l.i)); }
    if r.Int? { DigitTextAscii(Abs(r.i)); }
    assert IsAscii(PyStr(l, h)) && IsAscii(PyStr(r, h));
  }

  /** A decided condition outweighs whatever the other operand is, NULL included. */
  lemma ShortCircuit(op: Op, l: Value, b: SqlValue, h: Host)
    requires !l.Str? && Decides(op, l)
    ensures Emitted(op, Stored(l), b, h) == Stored(Bool(op == Or))
  {
  }

  /** The value of an operator both operands of which are evaluated. */
  function Strict(op: Op, l: Value, r: Value, h: Host): Result<Value, EvalError> {
    if op == And || op == Or then Ok(Bool(AsBool(r)))
    else if IsArithmetic(op) then Arith(op, l, r, h)
    else if op == Like then Ok(Bool(ContainsFold(l, r, h)))
    else Ok(Bool(Compare(op, l, r, h)))
  }

  lemma EvaluateOperator(op: Op, left: Node, right: Node, env: Record, h: Host)
    requires Evaluate(BinOp(op, left, right), env, h).Ok?
    ensures var v, l := Evaluate(BinOp(op, left, right), env, h), Evaluate(left, env, h);
            && l.Ok?
            && (Decides(op, l.value) ==> v == Ok(Bool(op == Or)))
            && (!Decides(op, l.value) ==>
                  Evaluate(right, env, h).Ok? && v == Strict(op, l.value, Evaluate(right, env, h).value, h))
  {
  }

  lemma PortableOperator(op: Op, left: Node, right: Node, env: Record, h: Host)
    requires Portable(BinOp(op, left, right), env, h) && Evaluate(BinOp(op, left, right), env, h).Ok?
    ensures var l := Evaluate(left, env, h);
            && l.Ok? && Portable(left, env, h) && (op == And || op == Or ==> !l.value.Str?)
            && (!Decides(op, l.value) ==>
                  && Portable(right, env, h) && Evaluate(right, env, h).Ok?
                  && SuitsOperator(op, l.value, Evaluate(right, env, h).value))
  {
    EvaluateOperator(op, left, right, env, h);
  }

  predicate SuitsOperator(op: Op, l: Value, r: Value) {
    if op == And || op == Or then !l.Str? && !r.Str? else PortableOperands(op, l, r)
  }

  lemma OperatorAgrees(op: Op, l: Value, r: Value, h: Host)
    requires Faithful(h)
    requires (l.Int? ==> Small(l.i)) && (r.Int? ==> Small(r.i))
    requires SuitsOperator(op, l, r) && !Decides(op, l)
    requires Strict(op, l, r, h).Ok?
    ensures Emitted(op, Stored(l), Stored(r), h) == Stored(Strict(op, l, r, h).value)
  {
    if IsArithmetic(op) { ArithAgrees(op, l, r, h); }
    else if IsComparison(op) { CompareAgrees(op, l, r, h); }
    else if op == Like { LikeAgrees(l, r, h); }
    else { LogicAgrees(op, l, r, h); }
  }

  lemma LogicAgrees(op: Op, l: Value, r: Value, h: Host)
    requires (op == And || op == Or) && !l.Str? && !r.Str? && !Decides(op, l)
    ensures SqlOperator(op, Stored(l), Stored(r), h) == Stored(Bool(AsBool(r)))
  {
  }

  /**
   Compiling preserves meaning: when the in-memory evaluator returns a value, SQLite returns the same
   value for the fragment with its parameters bound, short-circuited parts and NULLs included. Record and
   row need only agree on the fields the evaluator looks at.
  */
  lemma {:induction false} CompilingPreservesMeaning(
    e: Node, env: Record, row: Row, names: NameMap, extra: seq<string>, h: Host)
    requires Faithful(h) && KnownNames(e, names) && SameData(FieldsRead(e, env, h), env, row, names)
    requires Portable(e, env, h) && Evaluate(e, env, h).Ok?
    ensures Eval(Compiled(e, names), row, Strings(e) + extra, h) == (Stored(Evaluate(e, env, h).value), extra)
    decreases e, 1
  {
    match e
    case Constant(_) => assert Strings(e) + extra == extra;
    case Literal(text) => assert Strings(e) == [text] && ([text] + extra)[0] == text && ([text] + extra)[1..] == extra;
    case Var(_) => assert Strings(e) + extra == extra;
    case BinOp(op, left, right) => OperatorPreservesMeaning(op, left, right, env, row, names, extra, h);
  }

  lemma {:induction false} OperatorPreservesMeaning(
    op: Op, left: Node, right: Node, env: Record, row: Row, names: NameMap, extra: seq<string>, h: Host)
    requires Faithful(h) && KnownNames(BinOp(op, left, right), names)
    requires SameData(FieldsRead(BinOp(op, left, right), env, h), env, row, names)
    requires Portable(BinOp(op, left, right), env, h) && Evaluate(BinOp(op, left, right), env, h).Ok?
    ensures var e := BinOp(op, left, right);
            Eval(Compiled(e, names), row, Strings(e) + extra, h) == (Stored(Evaluate(e, env, h).value), extra)
    decreases BinOp(op, left, right), 0
  {
    var l, r := Evaluate(left, env, h), Evaluate(right, env, h);
    EvaluateOperator(op, left, right, env, h);
    PortableOperator(op, left, right, env, h);
    OperandsRead(op, left, right, env, row, names, h);
    CompilingPreservesMeaning(left, env, row, names, Strings(right) + extra, h);
    if Decides(op, l.value) {
      DecidedOperator(op, left, right, l.value, row, names, extra, h);
    } else {
      CompilingPreservesMeaning(right, env, row, names, extra, h);
      if l.value.Int? { PortableIsSmall(left, env, h); }
      if r.value.Int? { PortableIsSmall(right, env, h); }
      StrictOperator(op, left, right, l.value, r.value, row, names, extra, h);
    }
  }

  lemma OperandsRead(op: Op, left: Node, right: Node, env: Record, row: Row, names: NameMap, h: Host)
    requires SameData(FieldsRead(BinOp(op, left, right), env, h), env, row, names) && Evaluate(left, env, h).Ok?
    ensures SameData(FieldsRead(left, env, h), env, row, names)
    ensures !Decides(op, Evaluate(left, env, h).value) ==> SameData(FieldsRead(right, env, h), env, row, names)
  {
  }

  lemma DecidedOperator(
    op: Op, left: Node, right: Node, l: Value, row: Row, names: NameMap, extra: seq<string>, h: Host)
    requires KnownNames(BinOp(op, left, right), names) && !l.Str? && Decides(op, l)
    requires Eval(Compiled(left, names), row, Strings(left) + (Strings(right) + extra), h)
            == (Stored(l), Strings(right) + extra)
    ensures Eval(Compiled(BinOp(op, left, right), names), row, Strings(BinOp(op, left, right)) + extra, h)
            == (Stored(Bool(op == Or)), extra)
  {
    Associative(Strings(left), Strings(right), extra);
    EvalCompiled(op, left, right, names, row, Strings(left) + (Strings(right) + extra), h);
    TakesItsStrings(right, names, row, extra, h);
    ShortCircuit(op, l, Eval(Compiled(right, names), row, Strings(right) + extra, h).0, h);
  }

  lemma StrictOperator(
    op: Op, left: Node, right: Node, l: Value, r: Value, row: Row, names: NameMap, extra: seq<string>, h: Host)
    requires Faithful(h) && KnownNames(BinOp(op, left, right), names)
    requires (l.Int? ==> Small(l.i)) && (r.Int? ==> Small(r.i))
    requires SuitsOperator(op, l, r) && !Decides(op, l) && Strict(op, l, r, h).Ok?
    requires Eval(Compiled(left, names), row, Strings(left) + (Strings(right) + extra), h)
            == (Stored(l), Strings(right) + extra)
    requires Eval(Compiled(right, names), row, Strings(right) + extra, h) == (Stored(r), extra)
    ensures Eval(Compiled(BinOp(op, left, right), names), row, Strings(BinOp(op, left, right)) + extra, h)
            == (Stored(Strict(op, l, r, h).value), extra)
  {
    Associative(Strings(left), Strings(right), extra);
    EvalCompiled(op, left, right, names, row, Strings(left) + (Strings(right) + extra), h);
    OperatorAgrees(op, l, r, h);
  }

  /** Whether the WHERE clause selects the row. */
  predicate Selects(e: Node, row: Row, names: NameMap, h: Host)
    requires KnownNames(e, names)
  {
    Truth(Eval(Compiled(e, names), row, Strings(e), h).0, h) == Some(true)
  }

  /** The filter is not a bare string, nor a bare field that holds one. */
  predicate IsCondition(e: Node, env: Record) {
    !e.Literal? && (e.Var? && e.name in env ==> !env[e.name].Str?)
  }

  /**
   The in-memory filter keeps a record iff evaluation meets no missing variable, no arithmetic on a string and no
   zero divisor, and the WHERE clause selects the record's row.
  */
  lemma KeepsIffSelects(e: Node, env: Record, row: Row, names: NameMap, h: Host)
    requires Faithful(h) && KnownNames(e, names) && Portable(e, env, h)
    requires SameData(FieldsRead(e, env, h), env, row, names) && IsCondition(e, env)
    ensures Keeps(e, env, h) <==> Runs(e, env, h) && Selects(e, row, names, h)
  {
    EvaluatesIff(e, env, h);
    if Runs(e, env, h) {
      CompilingPreservesMeaning(e, env, row, names, [], h);
      ConcatNothing(Strings(e));
    }
  }

  /** So the two lists differ on a record exactly when its evaluation fails although its row is selected. */
  lemma DiffersExactly(e: Node, env: Record, row: Row, names: NameMap, h: Host)
    requires Faithful(h) && KnownNames(e, names) && Portable(e, env, h)
    requires SameData(FieldsRead(e, env, h), env, row, names) && IsCondition(e, env)
    ensures (Keeps(e, env, h) <==> Selects(e, row, names, h)) <==> Runs(e, env, h) || !Selects(e, row, names, h)
  {
    KeepsIffSelects(e, env, row, names, h);
  }

  /** A filter whose kinds fit keeps exactly the records it selects, whatever the values. */
  lemma TypedAgrees(e: Node, kinds: Kinds, env: Record, row: Row, names: NameMap, h: Host)
    requires Faithful(h) && KnownNames(e, names) && Portable(e, env, h)
    requires SameData(FieldsRead(e, env, h), env, row, names)
    requires HasKinds(env, kinds) && KindOf(e, kinds) == Some(NumberKind)
    ensures Keeps(e, env, h) <==> Selects(e, row, names, h)
  {
    TypedRuns(e, kinds, env, h);
    KeepsIffSelects(e, env, row, names, h);
  }

  /** A figure the daemon does not have is 0 in the record and NULL in the row: `sevana_mos < 3` tells them apart. */
  lemma MissingFigureDiffers(field: string, env: Record, row: Row, names: NameMap, h: Host)
    requires Faithful(h) && field in env && env[field] == Real(0.0)
    requires field in names && names[field] in row && row[names[field]] == Null
    ensures var e := BinOp(Lt, Var(field), Constant(Whole(3)));
            && KnownNames(e, names) && Portable(e, env, h) && Keeps(e, env, h) && !Selects(e, row, names, h)
  {
    var left, right := Var(field), Constant(Whole(3));
    assert h.round(3 as real) == 3 as real;
    assert KnownNames(left, names) && Strings(BinOp(Lt, left, right)) == [];
    EvalCompiled(Lt, left, right, names, row, [], h);
  }

  const ONE: Node := Constant(Whole(1))
  const QUOTIENT: Node := BinOp(Div, ONE, Constant(Whole(0)))
  const FAILING: Node := BinOp(Eq, QUOTIENT, ONE)
  const TRUE_TEST: Node := BinOp(Eq, ONE, ONE)

  lemma Ones(row: Row, names: NameMap, h: Host)
    ensures KnownNames(ONE, names) && Strings(ONE) == [] && Eval(Compiled(ONE, names), row, [], h) == (SqlInt(1), [])
  {
  }

  lemma QuotientIsNull(env: Record, row: Row, names: NameMap, h: Host)
    requires Faithful(h)
    ensures Portable(QUOTIENT, env, h) && Evaluate(QUOTIENT, env, h) == Err(DivisionByZero)
    ensures KnownNames(QUOTIENT, names) && Strings(QUOTIENT) == []
    ensures Eval(Compiled(QUOTIENT, names), row, [], h) == (Null, [])
  {
    EvalCompiled(Div, ONE, Constant(Whole(0)), names, row, [], h);
  }

  lemma FailingQuotient(env: Record, row: Row, names: NameMap, h: Host)
    requires Faithful(h)
    ensures Portable(FAILING, env, h) && Evaluate(FAILING, env, h) == Err(DivisionByZero)
    ensures KnownNames(FAILING, names) && Strings(FAILING) == []
    ensures Eval(Compiled(FAILING, names), row, [], h) == (Null, [])
  {
    QuotientIsNull(env, row, names, h);
    Ones(row, names, h);
    EvalCompiled(Eq, QUOTIENT, ONE, names, row, [], h);
    ConcatNothing(Strings(QUOTIENT));
  }

  lemma TrueTest(env: Record, row: Row, names: NameMap, h: Host)
    ensures Portable(TRUE_TEST, env, h) && KnownNames(TRUE_TEST, names) && Strings(TRUE_TEST) == []
    ensures Eval(Compiled(TRUE_TEST, names), row, [], h) == (SqlInt(1), [])
  {
    Ones(row, names, h);
    EvalCompiled(Eq, ONE, ONE, names, row, [], h);
    ConcatNothing(Strings(ONE));
  }

  /** `1/0 == 1 || 1 == 1`: the in-memory filter drops every record, SQL selects every row. */
  lemma DivisionByZeroDiffers(env: Record, row: Row, names: NameMap, h: Host)
    requires Faithful(h)
    ensures var e := BinOp(Or, FAILING, TRUE_TEST);
            && Portable(e, env, h) && Evaluate(e, env, h) == Err(DivisionByZero) && !Keeps(e, env, h)
            && KnownNames(e, names) && Selects(e, row, names, h)
  {
    FailingQuotient(env, row, names, h);
    TrueTest(env, row, names, h);
    EvalCompiled(Or, FAILING, TRUE_TEST, names, row, [], h);
    ConcatNothing(Strings(FAILING));
  }
}

/** How much a record and its row have to agree on for all filters to treat them alike. */
module FilterAgreement {
  import opened Lists
  import opened Results
  import opened FilterLexer
  import opened FilterParser
  import opened FilterEvaluate
  import opened FilterSql
  import opened FilterMeaning

  // ----- a filter that finds out one value -----

  function LiteralOf(v: Value): Node {
    match v
    case Int(i) => Constant(Whole(i))
    case Real(r) => Constant(Decimal(r))
    case Bool(b) => Constant(Whole(if b then 1 else 0))
    case Str(s) => Literal(s)
  }

  /** What the row has for a field. */
  function Held(field: string, row: Row, names: NameMap): SqlValue
    requires field in names
  {
    if names[field] in row then row[names[field]] else Null
  }

  predicate EqualInSql(a: SqlValue, b: SqlValue) {
    SqlCompare(Eq, a, b) == OfBool(true)
  }

  predicate SmallValue(v: Value) {
    v.Int? ==> Small(v.i)
  }

  lemma FieldEvaluates(field: string, row: Row, names: NameMap, params: seq<string>, h: Host)
    requires field in names
    ensures Eval(Compiled(Var(field), names), row, params, h) == (Held(field, row, names), params)
  {
  }

  lemma LiteralEvaluates(v: Value, env: Record, row: Row, names: NameMap, h: Host)
    requires SmallValue(v)
    ensures var e := LiteralOf(v);
            && KnownNames(e, names) && Portable(e, env, h) && Evaluate(e, env, h).Ok?
            && Evaluate(e, env, h).value == (if v.Bool? then Int(ToInt(v)) else v)
            && Eval(Compiled(e, names), row, Strings(e), h) == (Stored(v), [])
  {
    if v.Str? { assert Strings(Literal(v.s)) == [v.s] && [v.s][1..] == []; }
  }

  /** A value equals itself. */
  lemma ComparesToItself(v: Value, h: Host)
    requires Faithful(h) && SmallValue(v)
    ensures Compare(Eq, v, if v.Bool? then Int(ToInt(v)) else v, h)
  {
    assert h.round(0 as real) == 0.0 && h.round(1 as real) == 1.0;
  }

  /** `field == v`, with the record's own value v, keeps the record, and selects the row iff it has an equal value. */
  lemma DisagreementShows(field: string, env: Record, row: Row, names: NameMap, h: Host)
    requires Faithful(h) && field in env && field in names && SmallValue(env[field])
    ensures var e := BinOp(Eq, Var(field), LiteralOf(env[field]));
            && KnownNames(e, names) && Portable(e, env, h) && Keeps(e, env, h)
            && (Selects(e, row, names, h) <==> EqualInSql(Held(field, row, names), Stored(env[field])))
  {
    var v, left, right := env[field], Var(field), LiteralOf(env[field]);
    LiteralEvaluates(v, env, row, names, h);
    ComparesToItself(v, h);
    FieldEvaluates(field, row, names, Strings(right), h);
    EvalCompiled(Eq, left, right, names, row, Strings(right), h);
    assert Strings(left) == [];
    ConcatNothing(Strings(right));
    EqualIsSelected(Held(field, row, names), Stored(v), h);
  }

  lemma EqualIsSelected(a: SqlValue, b: SqlValue, h: Host)
    ensures Truth(Emitted(Eq, a, b, h), h) == Some(true) <==> EqualInSql(a, b)
  {
  }

  // ----- a filter that tells an integer from a float -----

  const ZERO: Node := Constant(Whole(0))
  const ONE: Node := Constant(Whole(1))
  const TWO: Node := Constant(Whole(2))

  /** `(field * 0 + 1) / 2 == 0`: one half is 0 only for integers. */
  function Halved(field: string): Node {
    BinOp(Div, BinOp(Add, BinOp(Mul, Var(field), ZERO), ONE), TWO)
  }

  function IntegerTest(field: string): Node {
    BinOp(Eq, Halved(field), ZERO)
  }

  /** One more operator with a whole number on its right, in memory. */
  lemma MemoryStep(op: Op, left: Node, l: Value, n: int, env: Record, h: Host)
    requires IsArithmetic(op) && Portable(left, env, h) && Evaluate(left, env, h) == Ok(l) && Small(n)
    requires PortableOperands(op, l, Int(n))
    ensures Portable(BinOp(op, left, Constant(Whole(n))), env, h)
    ensures Evaluate(BinOp(op, left, Constant(Whole(n))), env, h) == Arith(op, l, Int(n), h)
  {
    var right := Constant(Whole(n));
    assert Evaluate(right, env, h) == Ok(Int(n)) && Portable(right, env, h);
  }

  /** The SQL of a filter without strings computes a value. */
  ghost predicate Computes(e: Node, row: Row, names: NameMap, h: Host, v: SqlValue) {
    KnownNames(e, names) && Strings(e) == [] && Eval(Compiled(e, names), row, [], h) == (v, [])
  }

  /** And in SQL. */
  lemma SqlStep(op: Op, left: Node, a: SqlValue, n: int, row: Row, names: NameMap, h: Host, e: Node, v: SqlValue)
    requires op != Like && Computes(left, row, names, h, a)
    requires e == BinOp(op, left, Constant(Whole(n))) && v == SqlOperator(op, a, SqlInt(n), h)
    ensures Computes(e, row, names, h, v)
  {
    var right := Constant(Whole(n));
    assert KnownNames(right, names) && Strings(right) == [];
    assert Eval(Compiled(right, names), row, [], h) == (SqlInt(n), []);
    EvalCompiled(op, left, right, names, row, [], h);
    ConcatNothing(Strings(left));
  }

  /** What the test computes from a number. */
  lemma HalfOf(v: Value, h: Host)
    requires Faithful(h) && h.round(0.5) == 0.5 && !v.Str?
    ensures var zero, one := if v.Real? then Real(0.0) else Int(0), if v.Real? then Real(1.0) else Int(1);
            && Arith(Mul, v, Int(0), h) == Ok(zero) && Arith(Add, zero, Int(1), h) == Ok(one)
            && Arith(Div, one, Int(2), h) == Ok(if v.Real? then Real(0.5) else Int(0))
  {
    assert h.round(0 as real) == 0.0 && h.round(1 as real) == 1.0 && h.round(2 as real) == 2.0;
  }

  lemma HalfOfStored(w: SqlValue, h: Host)
    requires Faithful(h) && h.round(0.5) == 0.5 && (w.SqlInt? || w.SqlReal?)
    ensures var zero := if w.SqlReal? then SqlReal(0.0) else SqlInt(0);
            var one := if w.SqlReal? then SqlReal(1.0) else SqlInt(1);
            && SqlArith(Mul, w, SqlInt(0), h) == zero && SqlArith(Add, zero, SqlInt(1), h) == one
            && SqlArith(Div, one, SqlInt(2), h) == if w.SqlReal? then SqlReal(0.5) else SqlInt(0)
  {
    assert h.round(0 as real) == 0.0 && h.round(1 as real) == 1.0 && h.round(2 as real) == 2.0;
    if w.SqlReal? { RealHalf(w.r); }
  }

  lemma RealHalf(x: real)
    ensures RealOp(Mul, x, 0.0) == 0.0 && RealOp(Add, 0.0, 1.0) == 1.0 && RealOp(Div, 1.0, 2.0) == 0.5
  {
  }

  lemma HalvedInMemory(field: string, env: Record, h: Host)
    requires Faithful(h) && h.round(0.5) == 0.5 && field in env && SmallValue(env[field]) && !env[field].Str?
    ensures Portable(Halved(field), env, h)
    ensures Evaluate(Halved(field), env, h) == Ok(if env[field].Real? then Real(0.5) else Int(0))
  {
    var v := env[field];
    var zero, one := if v.Real? then Real(0.0) else Int(0), if v.Real? then Real(1.0) else Int(1);
    var product := BinOp(Mul, Var(field), ZERO);
    HalfOf(v, h);
    MemoryStep(Mul, Var(field), v, 0, env, h);
    MemoryStep(Add, product, zero, 1, env, h);
    MemoryStep(Div, BinOp(Add, product, ONE), one, 2, env, h);
  }

  lemma HalvedInSql(field: string, row: Row, names: NameMap, h: Host)
    requires Faithful(h) && h.round(0.5) == 0.5 && field in names
    requires Held(field, row, names).SqlInt? || Held(field, row, names).SqlReal?
    ensures Computes(Halved(field), row, names, h,
                     if Held(field, row, names).SqlReal? then SqlReal(0.5) else SqlInt(0))
  {
    var w := Held(field, row, names);
    var zero, one := if w.SqlReal? then SqlReal(0.0) else SqlInt(0), if w.SqlReal? then SqlReal(1.0) else SqlInt(1);
    var product := BinOp(Mul, Var(field), ZERO);
    var sum := BinOp(Add, product, ONE);
    HalfOfStored(w, h);
    FieldEvaluates(field, row, names, [], h);
    SqlStep(Mul, Var(field), w, 0, row, names, h, product, zero);
    SqlStep(Add, product, zero, 1, row, names, h, sum, one);
    SqlStep(Div, sum, one, 2, row, names, h, Halved(field), if w.SqlReal? then SqlReal(0.5) else SqlInt(0));
  }

  /** The test keeps the record iff its value is no float, and selects the row iff its value is none. */
  lemma IntegerTestShows(field: string, env: Record, row: Row, names: NameMap, h: Host)
    requires Faithful(h) && h.round(0.5) == 0.5 && field in env && field in names
    requires SmallValue(env[field]) && !env[field].Str?
    requires Held(field, row, names).SqlInt? || Held(field, row, names).SqlReal?
    ensures var e := IntegerTest(field);
            && KnownNames(e, names) && Portable(e, env, h) && Runs(e, env, h)
            && (Keeps(e, env, h) <==> !env[field].Real?)
            && (Selects(e, row, names, h) <==> !Held(field, row, names).SqlReal?)
  {
    TestInMemory(field, env, h);
    TestInSql(field, row, names, h);
    EvaluatesIff(IntegerTest(field), env, h);
  }

  lemma TestInSql(field: string, row: Row, names: NameMap, h: Host)
    requires Faithful(h) && h.round(0.5) == 0.5 && field in names
    requires Held(field, row, names).SqlInt? || Held(field, row, names).SqlReal?
    ensures KnownNames(IntegerTest(field), names)
    ensures Selects(IntegerTest(field), row, names, h) <==> !Held(field, row, names).SqlReal?
  {
    HalvedInSql(field, row, names, h);
    var w := if Held(field, row, names).SqlReal? then SqlReal(0.5) else SqlInt(0);
    SqlStep(Eq, Halved(field), w, 0, row, names, h, IntegerTest(field), SqlCompare(Eq, w, SqlInt(0)));
    assert h.round(0 as real) == 0.0;
  }

  lemma TestInMemory(field: string, env: Record, h: Host)
    requires Faithful(h) && h.round(0.5) == 0.5 && field in env && SmallValue(env[field]) && !env[field].Str?
    ensures Portable(IntegerTest(field), env, h)
    ensures Evaluate(IntegerTest(field), env, h) == Ok(Bool(!env[field].Real?))
  {
    HalvedInMemory(field, env, h);
    assert Evaluate(ZERO, env, h) == Ok(Int(0)) && Portable(ZERO, env, h);
    assert h.round(0 as real) == 0.0;
  }

  // ----- all filters -----

  /** A filter whose operands suit it, which evaluates, and which is a condition. */
  predicate Proper(e: Node, env: Record, names: NameMap, h: Host) {
    KnownNames(e, names) && Portable(e, env, h) && Runs(e, env, h) && IsCondition(e, env)
  }

  predicate Alike(e: Node, env: Record, row: Row, names: NameMap, h: Host)
    requires KnownNames(e, names)
  {
    Keeps(e, env, h) <==> Selects(e, row, names, h)
  }

  ghost predicate AllAlike(env: Record, row: Row, names: NameMap, h: Host) {
    forall e: Node :: Proper(e, env, names, h) ==> Alike(e, env, row, names, h)
  }

  lemma SameField(field: string, env: Record, row: Row, names: NameMap, h: Host)
    requires Faithful(h) && h.round(0.5) == 0.5 && field in env && field in names && SmallValue(env[field])
    requires AllAlike(env, row, names, h)
    ensures names[field] in row && row[names[field]] == Stored(env[field])
  {
    var e := BinOp(Eq, Var(field), LiteralOf(env[field]));
    DisagreementShows(field, env, row, names, h);
    EvaluatesIff(e, env, h);
    assert Proper(e, env, names, h) && Alike(e, env, row, names, h);
    if !env[field].Str? {
      IntegerTestShows(field, env, row, names, h);
      assert Proper(IntegerTest(field), env, names, h) && Alike(IntegerTest(field), env, row, names, h);
    }
  }

  /**
   Every proper filter keeps a record iff it selects its row, exactly when the row holds in every column a filter can
   name the record's own value: NULL for a missing figure, or a float for an integer, is seen by some filter.
  */
  lemma AgreementExact(env: Record, row: Row, names: NameMap, h: Host)
    requires Faithful(h) && h.round(0.5) == 0.5 && forall name :: name in env ==> SmallValue(env[name])
    ensures AllAlike(env, row, names, h) <==> SameData(env.Keys, env, row, names)
  {
    if AllAlike(env, row, names, h) {
      forall name | name in env && name in names ensures names[name] in row && row[names[name]] == Stored(env[name]) {
        SameField(name, env, row, names, h);
      }
    }
    if SameData(env.Keys, env, row, names) {
      forall e: Node | Proper(e, env, names, h) ensures Alike(e, env, row, names, h) {
        KeepsIffSelects(e, env, row, names, h);
      }
    }
  }
}

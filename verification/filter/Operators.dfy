/** What the operators of a filter compute, in the arithmetic and order of integers, reals and texts. */
module FilterOperators {
  import opened Results
  import opened Texts
  import opened FilterLexer
  import opened FilterParser
  import opened FilterEvaluate
  import opened FilterMeaning

  // ----- integers -----

  /** m and n differ by k times 2^64. */
  predicate Apart(m: int, n: int, k: int) {
    m == n + k * 0x1_0000_0000_0000_0000
  }

  /** Wrapping to 64 bits takes away a multiple of 2^64. */
  lemma WrapExact(n: int)
    ensures IsInt64(Wrap64(n)) && exists k :: Apart(n, Wrap64(n), k)
    ensures IsInt64(n) ==> Wrap64(n) == n
  {
    assert Apart(n, Wrap64(n), (n + 0x8000_0000_0000_0000) / 0x1_0000_0000_0000_0000);
  }

  /** q is a / b without its fraction: what is left over is smaller than b and on a's side of zero. */
  predicate Truncates(a: int, b: int, q: int) {
    Leaves(a, b, q * b)
  }

  predicate Leaves(a: int, b: int, taken: int) {
    var rest := a - taken;
    Abs(rest) < Abs(b) && (rest == 0 || (rest > 0 <==> a > 0))
  }

  lemma EuclideanRest(a: nat, b: nat)
    requires b > 0
    ensures 0 <= a - (a / b) * b < b && (a / b) * b >= 0
  {
  }

  lemma SignsOut(q: int, b: int)
    ensures (-q) * b == -(q * b) && q * (-b) == -(q * b)
  {
  }

  lemma TruncDivExact(a: int, b: int)
    requires b != 0
    ensures Truncates(a, b, TruncDiv(a, b))
  {
    var q := Abs(a) / Abs(b);
    EuclideanRest(Abs(a), Abs(b));
    SignsOut(q, b);
    RestOf(a, b, q * b);
  }

  /** The multiple of b that is taken from a, of the sign that fits. */
  lemma RestOf(a: int, b: int, product: int)
    requires b != 0
    requires var p := if b < 0 then -product else product; 0 <= p && 0 <= Abs(a) - p < Abs(b)
    ensures Leaves(a, b, if (a < 0) == (b < 0) then product else -product)
  {
  }

  /** Comparing integers that float64 holds compares them. */
  lemma IntegersCompare(x: int, y: int, h: Host)
    requires Faithful(h) && Small(x) && Small(y)
    ensures Compare(Eq, Int(x), Int(y), h) <==> x == y
    ensures Compare(Ne, Int(x), Int(y), h) <==> x != y
    ensures Compare(Lt, Int(x), Int(y), h) <==> x < y
    ensures Compare(Le, Int(x), Int(y), h) <==> x <= y
    ensures Compare(Gt, Int(x), Int(y), h) <==> x > y
    ensures Compare(Ge, Int(x), Int(y), h) <==> x >= y
  {
    assert h.round(x as real) == x as real && h.round(y as real) == y as real;
  }

  lemma Wrapped(n: int)
    ensures IsInt64(n) ==> Wrap64(n) == n
  {
  }

  lemma ProductComputes(x: int, y: int, product: int, h: Host)
    requires product == x * y
    ensures IsInt64(product) ==> Arith(Mul, Int(x), Int(y), h) == Ok(Int(product))
  {
    Wrapped(product);
  }

  /** Integer arithmetic is that of 64 bits, division cutting off the fraction. */
  lemma IntegersCompute(x: int, y: int, h: Host)
    ensures IsInt64(x + y) ==> Arith(Add, Int(x), Int(y), h) == Ok(Int(x + y))
    ensures IsInt64(x - y) ==> Arith(Sub, Int(x), Int(y), h) == Ok(Int(x - y))
    ensures IsInt64(x * y) ==> Arith(Mul, Int(x), Int(y), h) == Ok(Int(x * y))
    ensures y != 0 ==> exists q :: Truncates(x, y, q) && Arith(Div, Int(x), Int(y), h) == Ok(Int(Wrap64(q)))
  {
    Wrapped(x + y);
    Wrapped(x - y);
    ProductComputes(x, y, x * y, h);
    if y != 0 { TruncDivExact(x, y); }
  }

  // ----- floats -----

  lemma FloatsCompare(x: real, y: real, h: Host)
    ensures Compare(Eq, Real(x), Real(y), h) <==> x == y
    ensures Compare(Ne, Real(x), Real(y), h) <==> x != y
    ensures Compare(Lt, Real(x), Real(y), h) <==> x < y
    ensures Compare(Le, Real(x), Real(y), h) <==> x <= y
    ensures Compare(Gt, Real(x), Real(y), h) <==> x > y
    ensures Compare(Ge, Real(x), Real(y), h) <==> x >= y
  {
  }

  lemma FloatProduct(x: real, n: int, y: real, product: real, h: Host)
    requires ToFloat(Int(n), h) == y && product == x * y
    ensures Arith(Mul, Real(x), Int(n), h) == Ok(Real(h.round(product)))
  {
    assert RealOp(Mul, x, ToFloat(Int(n), h)) == product;
  }

  /** With a float on either side the exact result is rounded. */
  lemma FloatsCompute(x: real, n: int, h: Host)
    requires Faithful(h) && Small(n)
    ensures Arith(Add, Real(x), Int(n), h) == Ok(Real(h.round(x + n as real)))
    ensures Arith(Sub, Real(x), Int(n), h) == Ok(Real(h.round(x - n as real)))
    ensures Arith(Sub, Int(n), Real(x), h) == Ok(Real(h.round(n as real - x)))
    ensures Arith(Mul, Real(x), Int(n), h) == Ok(Real(h.round(x * (n as real))))
    ensures n != 0 ==> Arith(Div, Real(x), Int(n), h) == Ok(Real(h.round(x / (n as real))))
    ensures x != 0.0 ==> Arith(Div, Int(n), Real(x), h) == Ok(Real(h.round((n as real) / x)))
  {
    var y := n as real;
    assert ToFloat(Int(n), h) == y && (n != 0 ==> y != 0.0);
    FloatProduct(x, n, n as real, x * (n as real), h);
    assert n != 0 ==> RealOp(Div, x, y) == x / y;
    assert x != 0.0 ==> RealOp(Div, y, x) == y / x;
  }

  // ----- texts -----

  lemma TextsCompare(x: string, y: string, h: Host)
    ensures Compare(Eq, Str(x), Str(y), h) <==> x == y
    ensures Compare(Ne, Str(x), Str(y), h) <==> x != y
    ensures Compare(Lt, Str(x), Str(y), h) <==> exists k: nat :: SmallerFrom(x, y, k)
    ensures Compare(Gt, Str(x), Str(y), h) <==> exists k: nat :: SmallerFrom(y, x, k)
    ensures Compare(Le, Str(x), Str(y), h) <==> x == y || exists k: nat :: SmallerFrom(x, y, k)
    ensures Compare(Ge, Str(x), Str(y), h) <==> x == y || exists k: nat :: SmallerFrom(y, x, k)
  {
    TextLessExact(x, y);
    TextLessExact(y, x);
  }

  /** `~` looks for the right text in the left one, lower-cased both. */
  lemma LikeFinds(x: string, y: string, h: Host)
    ensures ContainsFold(Str(x), Str(y), h) <==> exists i: nat :: OccursAt(h.lower(y), h.lower(x), i)
  {
    ContainsExact(h.lower(x), h.lower(y));
  }

  /** A number and a text compare as numbers if the text is one, and otherwise by the number's decimal digits. */
  lemma MixedCompare(op: Op, n: int, s: string, h: Host)
    requires IsComparison(op) && Faithful(h) && Small(n)
    ensures h.float(s).Some? ==>
              && (Compare(op, Int(n), Str(s), h) <==> Compare(op, Real(n as real), Real(h.float(s).value), h))
              && (Compare(op, Str(s), Int(n), h) <==> Compare(op, Real(h.float(s).value), Real(n as real), h))
    ensures h.float(s).None? ==> (Compare(op, Int(n), Str(s), h) <==> Compare(op, Str(FormatInt(n)), Str(s), h))
    ensures h.float(s).None? ==> (Compare(op, Str(s), Int(n), h) <==> Compare(op, Str(s), Str(FormatInt(n)), h))
  {
    assert h.round(n as real) == n as real;
  }

  /** Lower-casing in SQL changes the capitals A to Z and nothing else. */
  lemma {:induction false} AsciiLowerExact(s: string, k: nat)
    requires k < |s|
    ensures |AsciiLower(s)| == |s|
    ensures AsciiLower(s)[k] as int == if 'A' <= s[k] <= 'Z' then s[k] as int + 32 else s[k] as int
  {
    if k > 0 {
      AsciiLowerExact(s[1..], k - 1);
    } else if |s| > 1 {
      AsciiLowerExact(s[1..], 0);
    }
  }

  // ----- the filter as a whole -----

  /** A comparison or arithmetic between two fields is that of the record's values. */
  lemma FieldsCombine(op: Op, a: string, b: string, env: Record, h: Host)
    requires a in env && b in env
    ensures IsComparison(op) ==>
              Evaluate(BinOp(op, Var(a), Var(b)), env, h) == Ok(Bool(Compare(op, env[a], env[b], h)))
    ensures IsArithmetic(op) ==> Evaluate(BinOp(op, Var(a), Var(b)), env, h) == Arith(op, env[a], env[b], h)
    ensures Evaluate(BinOp(Like, Var(a), Var(b)), env, h) == Ok(Bool(ContainsFold(env[a], env[b], h)))
    ensures Evaluate(BinOp(And, Var(a), Var(b)), env, h) == Ok(Bool(AsBool(env[a]) && AsBool(env[b])))
    ensures Evaluate(BinOp(Or, Var(a), Var(b)), env, h) == Ok(Bool(AsBool(env[a]) || AsBool(env[b])))
  {
  }

  /** What counts as true: a number that is not zero, a text that is not empty. */
  lemma TruthOfValues(n: int, r: real, s: string)
    ensures AsBool(Int(n)) <==> n < 0 || n > 0
    ensures AsBool(Real(r)) <==> r < 0.0 || r > 0.0
    ensures AsBool(Str(s)) <==> |s| > 0
    ensures AsBool(Bool(true)) && !AsBool(Bool(false))
  {
  }

  // ----- what SQL does where the filter language does not go -----

  /** NULL spreads through arithmetic and comparisons. */
  lemma NullSpreads(op: Op, v: SqlValue, h: Host)
    ensures IsArithmetic(op) ==> SqlArith(op, Null, v, h) == Null && SqlArith(op, v, Null, h) == Null
    ensures IsComparison(op) ==> SqlCompare(op, Null, v) == Null && SqlCompare(op, v, Null) == Null
  {
  }

  /** Every number is less than every text. */
  lemma NumbersBelowTexts(n: int, x: real, s: string)
    ensures SqlCompare(Lt, SqlInt(n), SqlText(s)) == SqlInt(1) && SqlCompare(Lt, SqlText(s), SqlInt(n)) == SqlInt(0)
    ensures SqlCompare(Gt, SqlText(s), SqlReal(x)) == SqlInt(1) && SqlCompare(Gt, SqlReal(x), SqlText(s)) == SqlInt(0)
    ensures SqlCompare(Eq, SqlInt(n), SqlText(s)) == SqlInt(0) && SqlCompare(Ne, SqlText(s), SqlReal(x)) == SqlInt(1)
  {
  }

  /** Integers that leave 64 bits become floats, and a division by zero is NULL. */
  lemma OverflowsToFloat(x: int, y: int, h: Host)
    requires Faithful(h) && Small(x) && Small(y) && !IsInt64(x * y)
    ensures SqlArith(Mul, SqlInt(x), SqlInt(y), h) == SqlReal(h.round(RealOp(Mul, x as real, y as real)))
    ensures SqlArith(Div, SqlInt(x), SqlInt(0), h) == Null && SqlArith(Div, SqlReal(x as real), SqlInt(0), h) == Null
  {
    assert h.round(x as real) == x as real && h.round(y as real) == y as real && h.round(0 as real) == 0.0;
  }
}

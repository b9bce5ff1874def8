/** Exact arithmetic with the special values the reducers meet: a number, the two
    infinities, or NaN.  Rounding is not represented. */
module ExtendedReals {

  datatype Float = NaN | NegInf | Fin(r: real) | PosInf

  /** The exponential and the logarithm, known only by their laws. */
  datatype ExpLog = ExpLog(exp: real -> real, log: real -> real) {
    ghost predicate Positive(x: real) {
      exp(x) > 0.0
    }

    ghost predicate TurnsSumIntoProduct(x: real, y: real) {
      exp(x + y) == exp(x) * exp(y)
    }

    ghost predicate Inverse(x: real) {
      log(exp(x)) == x && (x > 0.0 ==> exp(log(x)) == x)
    }

    ghost predicate Valid() {
      && (forall x :: Positive(x))
      && (forall x, y :: TurnsSumIntoProduct(x, y))
      && (forall x :: Inverse(x))
    }
  }

  function Neg(a: Float): Float {
    if a.Fin? then Fin(-a.r)
    else if a.NegInf? then PosInf
    else if a.PosInf? then NegInf
    else NaN
  }

  function Add(a: Float, b: Float): Float {
    if a.Fin? && b.Fin? then Fin(a.r + b.r)
    else if a.NaN? || b.NaN? then NaN
    else if a.Fin? then b
    else if b.Fin? || a == b then a
    else NaN
  }

  function Sub(a: Float, b: Float): Float {
    Add(a, Neg(b))
  }

  /** An infinity carrying the sign of x; NaN when x is zero. */
  function SignedInf(x: real): Float {
    if x > 0.0 then PosInf else if x < 0.0 then NegInf else NaN
  }

  /** The sign of a number or an infinity, as a real. */
  function Sign(a: Float): real
    requires !a.NaN?
  {
    if a.Fin? then a.r else if a.PosInf? then 1.0 else -1.0
  }

  function Mul(a: Float, b: Float): Float {
    if a.Fin? && b.Fin? then Fin(a.r * b.r)
    else if a.NaN? || b.NaN? then NaN
    else if a.PosInf? then SignedInf(Sign(b))
    else if a.NegInf? then SignedInf(-Sign(b))
    else if b.PosInf? then SignedInf(Sign(a))
    else SignedInf(-Sign(a))
  }

  predicate IsPositive(a: Float) {
    a.PosInf? || (a.Fin? && a.r > 0.0)
  }

  /** Division by a positive number or by plus infinity, the only use the kernels make of it. */
  function DivPositive(a: Float, b: Float): Float
    requires IsPositive(b)
  {
    if a.Fin? then (if b.Fin? then Fin(a.r / b.r) else Fin(0.0))
    else if b.Fin? then a
    else NaN
  }

  /** tl.maximum: a NaN operand loses against a number. */
  function Max(a: Float, b: Float): Float {
    if a.NaN? then b
    else if b.NaN? then a
    else if a.Fin? && b.Fin? then (if a.r >= b.r then a else b)
    else if a.PosInf? || b.NegInf? then a
    else b
  }

  function Exp(m: ExpLog, a: Float): Float {
    if a.Fin? then Fin(m.exp(a.r))
    else if a.NegInf? then Fin(0.0)
    else a
  }

  function Log(m: ExpLog, a: Float): Float {
    if a.Fin? && a.r > 0.0 then Fin(m.log(a.r))
    else if a == Fin(0.0) then NegInf
    else if a.PosInf? then PosInf
    else NaN
  }

  lemma {:induction false} SelfSquareIsOne(e: real)
    requires e == e * e && e > 0.0
    ensures e == 1.0
  {
    assert e / e == 1.0;
  }

  lemma {:induction false} ExpOfSum(m: ExpLog, x: real, y: real, sum: real)
    requires m.Valid() && sum == x + y
    ensures m.exp(sum) == m.exp(x) * m.exp(y) && m.exp(sum) > 0.0
  {
    assert m.TurnsSumIntoProduct(x, y);
    assert m.Positive(sum);
  }

  lemma {:induction false} ExpZero(m: ExpLog, zero: real)
    requires m.Valid() && zero == 0.0
    ensures m.exp(zero) == 1.0
  {
    ExpOfSum(m, zero, zero, zero);
    SelfSquareIsOne(m.exp(zero));
  }

  /** exp(-x) undoes exp(x). */
  lemma {:induction false} ExpNeg(m: ExpLog, x: real)
    requires m.Valid()
    ensures m.exp(-x) * m.exp(x) == 1.0
  {
    ExpOfSum(m, -x, x, 0.0);
    ExpZero(m, 0.0);
  }

  lemma {:induction false} LogOfExpLog(m: ExpLog, z: real)
    requires m.Valid() && z > 0.0
    ensures m.exp(m.log(z)) == z
  {
    assert m.Inverse(z);
  }

  /** Shifting the weights down by exp(x) shifts their logarithm by x. */
  lemma {:induction false} LogShift(m: ExpLog, z: real, x: real)
    requires m.Valid() && z > 0.0
    ensures z * m.exp(-x) > 0.0
    ensures x + m.log(z * m.exp(-x)) == m.log(z)
  {
    var l := m.log(z) + -x;
    assert m.Inverse(z);
    ExpOfSum(m, m.log(z), -x, l);
    assert m.exp(l) == z * m.exp(-x);
    assert m.Inverse(l);
  }
}

/** math.ts: the four arithmetic operations, over exact rationals (the
    source's numbers are IEEE doubles; rounding is not modelled). */
module Arithmetic {
  import opened Results

  const DivisionByZero := "Division by zero is not allowed"

  function Add(a: real, b: real): real {
    a + b
  }

  function Subtract(a: real, b: real): real {
    a - b
  }

  function Multiply(a: real, b: real): real {
    a * b
  }

  /** `divide(a, b)`: throws exactly when b is zero; otherwise the quotient,
      which multiplied back by b gives a. */
  function Divide(a: real, b: real): (r: Result<real, string>)
    ensures r.Failure? <==> b == 0.0
    ensures r.Failure? ==> r.error == DivisionByZero
    ensures r.Success? ==> Multiply(r.value, b) == a
  {
    if b == 0.0 then Failure(DivisionByZero) else Success(a / b)
  }

  /** Subtraction undoes addition and division undoes multiplication. */
  lemma Inverses(a: real, b: real)
    ensures Subtract(Add(a, b), b) == a
    ensures Add(Subtract(a, b), b) == a
    ensures b != 0.0 ==> Divide(Multiply(a, b), b) == Success(a)
  {
    if b != 0.0 {
      assert Multiply(a, b) / b * b == a * b;
    }
  }

  /** The cases the source's tests pin down, the decimal ones included:
      over exact reals they hold exactly. */
  lemma ArithmeticExamples()
    ensures Add(2.0, 3.0) == 5.0 && Add(-2.0, -3.0) == -5.0 && Add(2.0, -3.0) == -1.0 && Add(0.0, 5.0) == 5.0
    ensures Subtract(5.0, 3.0) == 2.0 && Subtract(-5.0, -3.0) == -2.0 && Subtract(5.0, -3.0) == 8.0
    ensures Subtract(5.0, 0.0) == 5.0
    ensures Multiply(2.0, 3.0) == 6.0 && Multiply(-2.0, -3.0) == 6.0 && Multiply(2.0, -3.0) == -6.0
    ensures Multiply(0.0, 5.0) == 0.0
    ensures Divide(6.0, 3.0) == Success(2.0) && Divide(-6.0, -3.0) == Success(2.0)
    ensures Divide(6.0, -3.0) == Success(-2.0) && Divide(0.0, 5.0) == Success(0.0)
    ensures Add(2.5, 3.1) == 5.6 && Subtract(5.5, 3.2) == 2.3 && Multiply(2.5, 3.1) == 7.75
    ensures Divide(7.5, 2.5) == Success(3.0)
    ensures Divide(5.0, 0.0) == Failure(DivisionByZero)
  {
  }
}

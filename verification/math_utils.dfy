/** utils/MathUtils.ts: `factorial` and `isEven` over integral numbers. */
module MathUtils {
  import opened Results

  const NegativeFactorial := "Factorial is not defined for negative numbers"

  /** `factorial(n)`: throws for negative n, 1 for 0 and 1, otherwise
      n * factorial(n - 1). */
  function Factorial(n: int): (r: Result<int, string>)
    ensures r.Failure? <==> n < 0
    ensures r.Failure? ==> r.error == NegativeFactorial
    ensures r.Success? ==> r.value >= 1
    decreases n
  {
    if n < 0 then Failure(NegativeFactorial)
    else if n == 0 || n == 1 then Success(1)
    else Success(n * Factorial(n - 1).value)
  }

  lemma FactorialBase()
    ensures Factorial(0) == Success(1) && Factorial(1) == Success(1)
  {
  }

  lemma FactorialStep(n: int)
    requires n >= 2
    ensures Factorial(n).value == n * Factorial(n - 1).value
  {
  }

  ghost predicate Divides(k: int, x: int) {
    exists m :: x == k * m
  }

  /** factorial(n) is a multiple of every k in 1 .. n. */
  lemma {:induction false} FactorialDivisible(n: int, k: int)
    requires 1 <= k <= n
    ensures Divides(k, Factorial(n).value)
    decreases n
  {
    if k < n {
      FactorialDivisible(n - 1, k);
      var m :| Factorial(n - 1).value == k * m;
      assert Factorial(n).value == n * (k * m);
      assert Factorial(n).value == k * (n * m);
    } else if n == 1 {
      assert Factorial(n).value == k * 1;
    } else {
      assert Factorial(n).value == k * Factorial(n - 1).value;
    }
  }

  /** JavaScript's `%`: the remainder takes the sign of the dividend and
      its magnitude is |a| modulo |b|. */
  function JsRemainder(a: int, b: int): (r: int)
    requires b != 0
    ensures a >= 0 ==> 0 <= r
    ensures a < 0 ==> r <= 0
    ensures -(if b < 0 then -b else b) < r < (if b < 0 then -b else b)
    ensures Divides(b, a - r)
  {
    var m := if b < 0 then -b else b;
    var sign := if b < 0 then -1 else 1;
    if a >= 0 then
      var r := a % m;
      assert a - r == b * (sign * (a / m));
      r
    else
      var r := -((-a) % m);
      assert a - r == b * (-sign * ((-a) / m));
      r
  }

  /** `isEven(n)`: `n % 2 === 0`; `-0 === 0`, so negative even numbers
      count too. */
  function IsEven(n: int): (r: bool)
    ensures r <==> exists k :: n == 2 * k
  {
    var rem := JsRemainder(n, 2);
    assert rem == 0 ==> n == 2 * (n / 2);
    assert rem != 0 ==> n % 2 == 1;
    rem == 0
  }

  lemma IsEvenExamples()
    ensures IsEven(4) && IsEven(0) && IsEven(-4)
    ensures !IsEven(3) && !IsEven(-3)
  {
    assert 4 == 2 * 2 && 0 == 2 * 0 && -4 == 2 * -2;
  }
}

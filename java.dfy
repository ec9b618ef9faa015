/** Java language facts the model relies on: the 32-bit `int`, the exceptions the
    core can raise, and the truncating integer operators Java uses. */
module Java {

  /** The values of a Java `int`. */
  type Int32 = x: int | -0x8000_0000 <= x < 0x8000_0000

  /** The unchecked exceptions the modelled code can throw. */
  datatype Fault =
    | IllegalArgument       // IllegalArgumentException
    | IllegalState          // IllegalStateException
    | IndexOutOfBounds      // ArrayIndexOutOfBoundsException
    | Arithmetic            // ArithmeticException ("/ by zero")
    | NegativeArraySize     // NegativeArraySizeException

  /** A value, or the exception that replaced it. */
  datatype Result<+T> = Success(value: T) | Failure(fault: Fault) {
    predicate IsFailure() {
      Failure?
    }

    function PropagateFailure<U>(): Result<U>
      requires Failure?
    {
      Failure(fault)
    }

    function Extract(): T
      requires Success?
    {
      value
    }
  }

  /** A statement that either completes normally or throws. */
  datatype Outcome = Pass | Fail(fault: Fault)

  datatype Option<+T> = None | Some(value: T)

  /** Java's `a % n` for `n > 0`: the remainder takes the sign of the dividend. */
  function JavaRem(a: int, n: int): (r: int)
    requires n > 0
    ensures a >= 0 ==> r == a % n
    ensures -n < r < n
    ensures r < 0 ==> a < 0
    ensures a < 0 ==> r <= 0 && (a - r) % n == 0
  {
    if a >= 0 then a % n
    else
      var m := (-a) % n;
      MultipleRemainder(-((-a) / n), n);
      assert a + m == -((-a) / n) * n;
      -m
  }

  /** A multiple of n leaves no remainder. */
  lemma MultipleRemainder(k: int, n: int)
    requires n > 0
    ensures (k * n) % n == 0
  {
    var q, m := (k * n) / n, (k * n) % n;
    assert (k - q) * n == m;
    if k - q >= 1 {
      assert false;
    } else if k - q <= -1 {
      assert false;
    }
  }

  /** Java's `(int)` cast of a double, for values inside the `int` range:
      truncation toward zero. */
  function TruncToInt(v: real): (r: int)
    ensures v >= 0.0 ==> r as real <= v < r as real + 1.0
    ensures v < 0.0 ==> r as real - 1.0 < v <= r as real
  {
    if v >= 0.0 then v.Floor else -((-v).Floor)
  }
}

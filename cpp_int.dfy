/** C++ integer division and remainder on `int`.
    Dafny's `/` and `%` are Euclidean; C++ truncates the quotient toward
    zero and gives the remainder the sign of the dividend.  The subplot grid
    arithmetic of every Figure variant uses these two operators. */
module CppInt {

  function Abs(a: int): nat
  {
    if a < 0 then -a else a
  }

  /** `a / b` in C++: the quotient truncated toward zero.  The two ensures
      together pin the quotient down uniquely: the remainder `a - q * b` is
      smaller than the divisor and never has the opposite sign of `a`. */
  function Div(a: int, b: int): (q: int)
    requires b != 0
    ensures Abs(a - q * b) < Abs(b)
    ensures a - q * b != 0 ==> (a - q * b < 0 <==> a < 0)
  {
    var q0 := Abs(a) / Abs(b);
    NegateFactor(q0, Abs(b));
    if (a < 0) == (b < 0) then q0 else -q0
  }

  /** Moving a sign between the factors of a product. */
  lemma NegateFactor(x: int, y: int)
    ensures x * -y == -(x * y) && -x * y == -(x * y) && -x * -y == x * y
  {
  }

  /** `a % b` in C++: what is left after the truncated quotient. */
  function Mod(a: int, b: int): (r: int)
    requires b != 0
    ensures a == Div(a, b) * b + r
    ensures Abs(r) < Abs(b)
    ensures r != 0 ==> (r < 0 <==> a < 0)
  {
    a - Div(a, b) * b
  }

  /** On a non-negative dividend and a positive divisor, C++ and Dafny agree. */
  lemma DivModNonNegative(a: int, b: int)
    requires a >= 0 && b > 0
    ensures Div(a, b) == a / b
    ensures Mod(a, b) == a % b
  {
    var q, r := Div(a, b), Mod(a, b);
    assert 0 <= r < b;
    assert a == q * b + r;
    assert a == (a / b) * b + a % b;
  }

  lemma MulMonotone(a: int, b: int, c: int)
    requires a <= b && c >= 0
    ensures a * c <= b * c
  {
    assert b * c - a * c == (b - a) * c;
  }

  /** A dividend of at most `k * n` gives a quotient of at most `k`. */
  lemma DivBelow(p: int, k: int, n: int)
    requires 0 <= p <= k * n && n > 0
    ensures 0 <= p / n <= k
  {
    var q := p / n;
    assert q * n <= p;
    assert (k + 1) * n == k * n + n;
    if q > k {
      MulMonotone(k + 1, q, n);
    }
  }

  /** A non-zero multiple of `n` is at least `n` away from zero. */
  lemma NonZeroMultiple(k: int, n: int)
    requires k != 0 && n > 0
    ensures Abs(k * n) >= n
  {
    if k > 0 {
      MulMonotone(1, k, n);
    } else {
      MulMonotone(1, -k, n);
      assert (-k) * n == -(k * n);
    }
  }

  /** Dividing an exact multiple gives the factor back, whatever its sign. */
  lemma DivExact(m: int, n: int)
    requires n > 0
    ensures Div(m * n, n) == m
  {
    var q := Div(m * n, n);
    assert m * n - q * n == (m - q) * n;
    if m != q {
      NonZeroMultiple(m - q, n);
    }
  }

  /** Truncation differs from Dafny's division on a negative dividend that
      the divisor does not divide: the C++ quotient is one above the
      Euclidean one and the remainder is negative (`-1 / 2 == 0` and
      `-1 % 2 == -1` in C++, where Dafny gives `-1` and `1`). */
  lemma NegativeDividendTruncates(a: int, b: int)
    requires a < 0 && b > 0 && a % b != 0
    ensures Div(a, b) == a / b + 1 && Mod(a, b) == a % b - b
  {
    var q, q' := a / b + 1, Div(a, b);
    var r, r' := a % b - b, a - q' * b;
    assert q * b == (a / b) * b + b;
    assert a - q * b == r;
    assert -b < r < 0 && -b < r' <= 0;
    assert (q' - q) * b == r - r';
    if q' - q >= 1 {
      MulMonotone(1, q' - q, b);
    } else if q' - q <= -1 {
      MulMonotone(q' - q, -1, b);
    }
  }
}

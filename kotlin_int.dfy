/** Kotlin's `Int` division and remainder, and the `umod` helper the generator
    builds on them. Kotlin's `/` truncates toward zero and its `%` takes the
    sign of the dividend, unlike Dafny's Euclidean operators, so both are
    written out. Every divisor in the generator is a section size or 2, so
    only positive divisors are modelled. Integer width is not modelled. */
module KotlinInt {

  /** Euclidean quotient and remainder by a positive divisor are unique. */
  lemma DivModUnique(a: int, n: int, q: int, r: int)
    requires n > 0 && 0 <= r < n && a == n * q + r
    ensures a / n == q && a % n == r
  {
    var q', r' := a / n, a % n;
    assert a == n * q' + r';
    assert n * (q - q') == r' - r;
    if q' < q {
      MulAtLeast(n, q - q');
    } else if q < q' {
      MulAtLeast(n, q' - q);
    }
  }

  lemma MulAtLeast(n: int, k: int)
    requires n > 0 && k >= 1
    ensures n * k >= n
  {
  }

  /** Kotlin `a / n`: the quotient truncated toward zero. It is the floor
      quotient, except for a negative dividend that is not a multiple of the
      divisor, where it is one more. */
  function Div(a: int, n: int): (q: int)
    requires n > 0
    ensures a >= 0 || a % n == 0 ==> q == a / n
    ensures a < 0 && a % n != 0 ==> q == a / n + 1
  {
    if a >= 0 then a / n
    else
      var m, r := (-a) / n, (-a) % n;
      if r == 0 then
        DivModUnique(a, n, -m, 0);
        -m
      else
        DivModUnique(a, n, -m - 1, n - r);
        -m
  }

  /** Kotlin `a % n`: the remainder that goes with `Div`, carrying the sign of `a`. */
  function Rem(a: int, n: int): (r: int)
    requires n > 0
    ensures a == n * Div(a, n) + r
    ensures -n < r < n
    ensures a >= 0 ==> r >= 0
    ensures a <= 0 ==> r <= 0
  {
    if a >= 0 then a % n else -((-a) % n)
  }

  /** `umod` (the source calls it an unsigned remainder, always >= 0): the
      Kotlin remainder, shifted by the divisor when it comes out negative.
      It is exactly Dafny's floor remainder. */
  function UMod(a: int, n: int): (r: int)
    requires n > 0
    ensures 0 <= r < n
    ensures r == a % n
  {
    var t := Rem(a, n);
    if t < 0 then
      DivModUnique(a, n, Div(a, n) - 1, t + n);
      t + n
    else
      DivModUnique(a, n, Div(a, n), t);
      t
  }

  /** On an exact multiple, Kotlin's truncating quotient is the floor quotient. */
  lemma DivExact(a: int, n: int)
    requires n > 0 && a % n == 0
    ensures Div(a, n) == a / n
    ensures a == n * Div(a, n)
  {
    var q := a / n;
    assert a == n * q;
    if a < 0 {
      assert -a == n * (-q);
      DivModUnique(-a, n, -q, 0);
    }
  }

  /** Reducing the dividend first does not change a floor remainder:
      `(a % n + c) % n == (a + c) % n`. */
  lemma ModAddReduce(a: int, c: int, n: int)
    requires n > 0
    ensures (a % n + c) % n == (a + c) % n
  {
    var q := a / n;
    var t := a % n + c;
    assert a + c == t + n * q;
    var q2, r2 := t / n, t % n;
    assert t == n * q2 + r2;
    assert a + c == n * (q + q2) + r2;
    DivModUnique(a + c, n, q + q2, r2);
  }

  /** Adding a whole number of periods does not change a floor remainder. */
  lemma ModAddMultiple(a: int, k: int, n: int)
    requires n > 0
    ensures (a + n * k) % n == a % n
  {
    var q, r := a / n, a % n;
    assert a + n * k == n * (q + k) + r;
    DivModUnique(a + n * k, n, q + k, r);
  }

  /** Subtracting the floor remainder leaves an exact multiple whose quotient
      is the floor quotient. */
  lemma FloorMultiple(a: int, n: int)
    requires n > 0
    ensures (a - a % n) % n == 0
    ensures (a - a % n) / n == a / n
  {
    DivModUnique(a - a % n, n, a / n, 0);
  }
}

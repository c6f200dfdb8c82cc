/**
 * Quaternion<int>: the same operators instantiated with C++ `int`, whose
 * division truncates toward zero. Components are unbounded integers.
 */
module IntQuaternion {
  import opened Errors

  /** A quaternion with integer components. */
  datatype IntQuat = IntQuat(x: int, y: int, z: int, w: int)

  /** The default value: every component int{} == 0. */
  const Zero: IntQuat := IntQuat(0, 0, 0, 0)

  /** The multiplicative identity (0, 0, 0, 1). */
  const One: IntQuat := IntQuat(0, 0, 0, 1)

  /** The magnitude of an integer. */
  function Abs(n: int): nat
  {
    if n < 0 then -n else n
  }

  /**
   * q is the quotient of n / d rounded toward zero: the remainder n - d * q is
   * smaller than the divisor in magnitude and never has the opposite sign of n.
   */
  predicate IsTruncatedQuotient(n: int, d: int, q: int)
  {
    Abs(n - d * q) < Abs(d) && n * (n - d * q) >= 0
  }

  /** C++ `int` division `n / d`, which truncates toward zero. */
  function TruncDiv(n: int, d: int): (q: int)
    requires d != 0
    ensures IsTruncatedQuotient(n, d, q)
  {
    TruncDivCorrect(n, d);
    if (n < 0) == (d < 0) then Abs(n) / Abs(d) else -(Abs(n) / Abs(d))
  }

  /** Dividing the magnitudes and fixing the sign afterwards truncates toward zero. */
  lemma TruncDivCorrect(n: int, d: int)
    requires d != 0
    ensures IsTruncatedQuotient(n, d, if (n < 0) == (d < 0) then Abs(n) / Abs(d) else -(Abs(n) / Abs(d)))
  {
    EuclidNonNegative(Abs(n), Abs(d));
    SignedQuotient(n, d, Abs(n) / Abs(d), Abs(n) % Abs(d));
  }

  /** If |n| = |d| t + m with 0 <= m < |d|, then t with the sign of n / d is the truncated quotient. */
  lemma SignedQuotient(n: int, d: int, t: int, m: int)
    requires d != 0 && Abs(n) == Abs(d) * t + m && 0 <= m < Abs(d)
    ensures IsTruncatedQuotient(n, d, if (n < 0) == (d < 0) then t else -t)
  {
    SignedProduct(d, t);
    // In each case the remainder is m with the sign of n.
    if n >= 0 && d > 0 {
      assert n - d * t == m;
      SignAgrees(n, m);
    } else if n >= 0 {
      assert n - d * -t == m;
      SignAgrees(n, m);
    } else if d > 0 {
      assert n - d * -t == -m;
      SignAgrees(n, -m);
    } else {
      assert n - d * t == -m;
      SignAgrees(n, -m);
    }
  }

  /** d * t and d * -t in terms of the magnitude of d. */
  lemma SignedProduct(d: int, t: int)
    ensures d * t == if d < 0 then -(Abs(d) * t) else Abs(d) * t
    ensures d * -t == -(d * t)
  {
  }

  /** For non-negative operands Dafny's division and remainder are the familiar ones. */
  lemma EuclidNonNegative(a: nat, b: nat)
    requires b > 0
    ensures a == b * (a / b) + a % b && 0 <= a % b < b
  {
  }

  /** A remainder with the sign of the dividend gives a non-negative product. */
  lemma SignAgrees(n: int, rem: int)
    requires n >= 0 ==> rem >= 0
    requires n <= 0 ==> rem <= 0
    ensures n * rem >= 0
  {
    if n > 0 {
      assert n * rem >= 0 * rem;
    } else if n < 0 {
      assert (-n) * (-rem) >= 0 * (-rem);
    }
  }

  /** The truncated quotient is unique, so `IsTruncatedQuotient` fully specifies `TruncDiv`. */
  lemma TruncatedQuotientUnique(n: int, d: int, q1: int, q2: int)
    requires d != 0
    requires IsTruncatedQuotient(n, d, q1) && IsTruncatedQuotient(n, d, q2)
    ensures q1 == q2
  {
    var r1, r2 := n - d * q1, n - d * q2;
    if q1 != q2 {
      assert r1 - r2 == d * (q2 - q1) by {
        Distributes(d, q2, q1);
      }
      MultipleAtLeast(d, q2 - q1);
      if n == 0 {
        // Both remainders are multiples of d below |d|, so both quotients are 0.
        ZeroQuotient(d, q1);
        ZeroQuotient(d, q2);
      } else {
        RemainderSign(n, r1);
        RemainderSign(n, r2);
      }
    }
  }

  /** Multiplication distributes over subtraction. */
  lemma Distributes(d: int, a: int, b: int)
    ensures d * (a - b) == d * a - d * b
  {
  }

  /** A multiple of d that is smaller than d in magnitude is 0. */
  lemma ZeroQuotient(d: int, q: int)
    requires d != 0 && Abs(-(d * q)) < Abs(d)
    ensures q == 0
  {
    if q != 0 {
      MultipleAtLeast(d, q);
    }
  }

  /** A non-negative product fixes the sign of the remainder from the sign of the dividend. */
  lemma RemainderSign(n: int, rem: int)
    requires n * rem >= 0
    ensures n > 0 ==> rem >= 0
    ensures n < 0 ==> rem <= 0
  {
  }

  /** A nonzero multiple of d is at least as large as d in magnitude. */
  lemma MultipleAtLeast(d: int, k: int)
    requires k != 0
    ensures Abs(d * k) >= Abs(d)
  {
    AbsProduct(d, k);
    NatProduct(Abs(d), Abs(k));
  }

  /** Multiplying a natural number by a positive one does not make it smaller. */
  lemma NatProduct(a: nat, b: nat)
    requires b >= 1
    ensures a * b >= a
  {
    assert a * b == a * (b - 1) + a;
  }

  /** The magnitude of a product is the product of the magnitudes. */
  lemma AbsProduct(d: int, k: int)
    ensures Abs(d * k) == Abs(d) * Abs(k)
  {
    if d < 0 && k < 0 {
      assert d * k == (-d) * (-k);
    } else if d < 0 {
      assert d * k == -((-d) * k);
    } else if k < 0 {
      assert d * k == -(d * (-k));
    }
  }

  /** `a + b` and `a += b`. */
  function Add(a: IntQuat, b: IntQuat): IntQuat
  {
    IntQuat(a.x + b.x, a.y + b.y, a.z + b.z, a.w + b.w)
  }

  /** `a - b` and `a -= b`. */
  function Sub(a: IntQuat, b: IntQuat): IntQuat
  {
    IntQuat(a.x - b.x, a.y - b.y, a.z - b.z, a.w - b.w)
  }

  /** Unary minus. */
  function Neg(q: IntQuat): IntQuat
  {
    IntQuat(-q.x, -q.y, -q.z, -q.w)
  }

  /** `q * s`, `s * q` and `q *= s` with an `int` scalar. */
  function Scale(q: IntQuat, s: int): IntQuat
  {
    IntQuat(q.x * s, q.y * s, q.z * s, q.w * s)
  }

  /** The Hamilton product `a * b` and `a *= b`. */
  function Mul(a: IntQuat, b: IntQuat): IntQuat
  {
    IntQuat(a.w * b.x + a.x * b.w + a.y * b.z - a.z * b.y,
            a.w * b.y - a.x * b.z + a.y * b.w + a.z * b.x,
            a.w * b.z + a.x * b.y - a.y * b.x + a.z * b.w,
            a.w * b.w - a.x * b.x - a.y * b.y - a.z * b.z)
  }

  /**
   * `q / s` and `q /= s` with an `int` divisor: zero is an error; otherwise each
   * component is divided with truncation toward zero.
   */
  function Div(q: IntQuat, s: int): (r: Result<IntQuat>)
    ensures r.Ok? <==> s != 0
    ensures r.Err? ==> r.error == DivisionByZero
    ensures r.Ok? ==> forall c :: 0 <= c < 4 ==> IsTruncatedQuotient(Part(q, c), s, Part(r.value, c))
  {
    if s == 0 then Err(DivisionByZero)
    else Ok(IntQuat(TruncDiv(q.x, s), TruncDiv(q.y, s), TruncDiv(q.z, s), TruncDiv(q.w, s)))
  }

  /** Component `c` in index order x, y, z, w. */
  function Part(q: IntQuat, c: nat): int
    requires c < 4
  {
    if c == 0 then q.x else if c == 1 then q.y else if c == 2 then q.z else q.w
  }

  /** x*x + y*y + z*z + w*w: never negative, and zero exactly for the zero quaternion. */
  function SquaredNorm(q: IntQuat): (n: int)
    ensures n >= 0
    ensures n == 0 <==> q == Zero
  {
    SquareNonNegative(q.x);
    SquareNonNegative(q.y);
    SquareNonNegative(q.z);
    SquareNonNegative(q.w);
    q.x * q.x + q.y * q.y + q.z * q.z + q.w * q.w
  }

  /** A square is never negative, and positive for a nonzero value. */
  lemma SquareNonNegative(v: int)
    ensures v * v >= 0
    ensures v != 0 ==> v * v > 0
  {
    if v < 0 {
      assert v * v == (-v) * (-v);
      NatProduct(-v, -v);
    } else if v > 0 {
      NatProduct(v, v);
    }
  }

  /** The returning form: vector part negated, scalar part kept. */
  function Conjugated(q: IntQuat): IntQuat
  {
    IntQuat(-q.x, -q.y, -q.z, q.w)
  }

  /** The in-place form, which multiplies x, y and z by -1. */
  function Conjugate(q: IntQuat): (r: IntQuat)
    ensures r == Conjugated(q)
  {
    IntQuat(q.x * -1, q.y * -1, q.z * -1, q.w)
  }

  /** `Inversed()` and `Inverse()`: the conjugate divided (truncating) by the squared norm. */
  function Inversed(q: IntQuat): (r: Result<IntQuat>)
    ensures r.Ok? <==> SquaredNorm(q) != 0
    ensures r.Err? ==> r.error == DivisionByZero
    ensures r.Ok? ==> forall c :: 0 <= c < 4 ==> IsTruncatedQuotient(Part(Conjugated(q), c), SquaredNorm(q), Part(r.value, c))
  {
    Div(Conjugated(q), SquaredNorm(q))
  }

  /** The free function `Dot`. */
  function Dot(a: IntQuat, b: IntQuat): int
  {
    a.w * b.w + a.x * b.x + a.y * b.y + a.z * b.z
  }

  /** Unnormalised linear interpolation (1 - t) * a + t * b with an integer t. */
  function Lerp(a: IntQuat, b: IntQuat, t: int): IntQuat
  {
    IntQuat((1 - t) * a.x + t * b.x,
            (1 - t) * a.y + t * b.y,
            (1 - t) * a.z + t * b.z,
            (1 - t) * a.w + t * b.w)
  }

  /** Truncation is symmetric: negating the dividend negates the quotient. */
  lemma TruncDivNegates(n: int, d: int)
    requires d != 0
    ensures TruncDiv(-n, d) == -TruncDiv(n, d)
  {
    var q := TruncDiv(n, d);
    var rem := n - d * q;
    assert -n - d * -q == -rem by {
      SignedProduct(d, q);
    }
    assert (-n) * (-rem) == n * rem;
    TruncatedQuotientUnique(-n, d, TruncDiv(-n, d), -q);
  }

  /** For a nonnegative dividend and a positive divisor, truncation agrees with floor division. */
  lemma TruncDivNonNegative(n: nat, d: int)
    requires d > 0
    ensures TruncDiv(n, d) == n / d
  {
    EuclidNonNegative(n, d);
    assert n - d * (n / d) == n % d;
    TruncatedQuotientUnique(n, d, TruncDiv(n, d), n / d);
  }

  /** A dividend smaller than the divisor in magnitude truncates to zero. */
  lemma TruncDivSmall(n: int, d: int)
    requires Abs(n) < Abs(d)
    ensures TruncDiv(n, d) == 0
  {
    assert n - d * 0 == n;
    TruncatedQuotientUnique(n, d, TruncDiv(n, d), 0);
  }

  /** An exact multiple divides without remainder. */
  lemma TruncDivExact(k: int, d: int)
    requires d != 0
    ensures TruncDiv(d * k, d) == k
  {
    assert d * k - d * k == 0;
    TruncatedQuotientUnique(d * k, d, TruncDiv(d * k, d), k);
  }

  /** Scaling by a nonzero integer and then dividing by it gives back the quaternion. */
  lemma DivUndoesScale(q: IntQuat, s: int)
    requires s != 0
    ensures Div(Scale(q, s), s) == Ok(q)
  {
    TruncDivExact(q.x, s);
    TruncDivExact(q.y, s);
    TruncDivExact(q.z, s);
    TruncDivExact(q.w, s);
    assert q.x * s == s * q.x && q.y * s == s * q.y;
    assert q.z * s == s * q.z && q.w * s == s * q.w;
  }

  /** An integer is at most its square in magnitude, and below it once it exceeds 1 in magnitude. */
  lemma AbsBelowSquare(c: int)
    ensures Abs(c) <= c * c
    ensures Abs(c) >= 2 ==> Abs(c) < c * c
  {
    assert c * c == Abs(c) * Abs(c);
    if Abs(c) >= 1 {
      NatProduct(Abs(c), Abs(c));
    }
    if Abs(c) >= 2 {
      assert Abs(c) * Abs(c) >= Abs(c) * 2 by {
        NatProduct(Abs(c), Abs(c) - 1);
        assert Abs(c) * Abs(c) == Abs(c) * (Abs(c) - 1) + Abs(c);
      }
    }
  }

  /** (0, 0, 0, 1) is a two-sided identity of the int Hamilton product. */
  lemma MulIdentity(q: IntQuat)
    ensures Mul(q, One) == q && Mul(One, q) == q
  {
  }

  /** A quaternion times its conjugate is its squared norm on the scalar part. */
  lemma MulConjugate(q: IntQuat)
    ensures Mul(q, Conjugated(q)) == IntQuat(0, 0, 0, SquaredNorm(q))
  {
    ConjugateProduct(Conjugated(q), q);
  }

  /** The components of q times its conjugate `c`: zero vector part, squared norm as scalar part. */
  lemma ConjugateProduct(c: IntQuat, q: IntQuat)
    requires c.x == -q.x && c.y == -q.y && c.z == -q.z && c.w == q.w
    ensures q.w * c.x + q.x * c.w + q.y * c.z - q.z * c.y == 0
    ensures q.w * c.y - q.x * c.z + q.y * c.w + q.z * c.x == 0
    ensures q.w * c.z + q.x * c.y - q.y * c.x + q.z * c.w == 0
    ensures q.w * c.w - q.x * c.x - q.y * c.y - q.z * c.z == SquaredNorm(q)
  {
  }

  /** With truncating division the inverse of a unit quaternion is exactly its conjugate, a true inverse. */
  lemma UnitInverse(q: IntQuat)
    requires SquaredNorm(q) == 1
    ensures Inversed(q) == Ok(Conjugated(q))
    ensures Mul(q, Conjugated(q)) == One
  {
    var c := Conjugated(q);
    TruncDivExact(c.x, 1);
    TruncDivExact(c.y, 1);
    TruncDivExact(c.z, 1);
    TruncDivExact(c.w, 1);
    MulConjugate(q);
  }

  /** Every component is smaller in magnitude than a squared norm of 2 or more. */
  lemma ComponentBelowNorm(q: IntQuat, c: int)
    requires SquaredNorm(q) >= 2
    requires c == q.x || c == q.y || c == q.z || c == q.w
    ensures Abs(c) < SquaredNorm(q)
  {
    AbsBelowSquare(q.x);
    AbsBelowSquare(q.y);
    AbsBelowSquare(q.z);
    AbsBelowSquare(q.w);
    AbsBelowSquare(c);
  }

  /** With truncating division every quaternion of squared norm 2 or more inverts to zero. */
  lemma InverseCollapses(q: IntQuat)
    requires SquaredNorm(q) >= 2
    ensures Inversed(q) == Ok(Zero)
  {
    var n := SquaredNorm(q);
    ComponentBelowNorm(q, q.x);
    ComponentBelowNorm(q, q.y);
    ComponentBelowNorm(q, q.z);
    ComponentBelowNorm(q, q.w);
    TruncDivSmall(-q.x, n);
    TruncDivSmall(-q.y, n);
    TruncDivSmall(-q.z, n);
    TruncDivSmall(q.w, n);
  }

  /** Lerp reaches its endpoints at t = 0 and t = 1. */
  lemma LerpEndpoints(a: IntQuat, b: IntQuat)
    ensures Lerp(a, b, 0) == a
    ensures Lerp(a, b, 1) == b
  {
  }
}

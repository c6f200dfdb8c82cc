/**
 * The arithmetic of Quaternion<double>. A binary operator and its
 * compound-assignment form compute the same value when both operands are
 * real, so each pair is one function here.
 */
module Arithmetic {
  import opened Errors
  import opened Quaternions

  /** `a + b` and `a += b`. */
  function Add(a: Quat, b: Quat): Quat
  {
    Quat(a.x + b.x, a.y + b.y, a.z + b.z, a.w + b.w)
  }

  /** `a - b` and `a -= b`. */
  function Sub(a: Quat, b: Quat): Quat
  {
    Quat(a.x - b.x, a.y - b.y, a.z - b.z, a.w - b.w)
  }

  /** Unary minus. */
  function Neg(q: Quat): Quat
  {
    Quat(-q.x, -q.y, -q.z, -q.w)
  }

  /** `q * s`, `s * q` and `q *= s`: every component is multiplied by the scalar. */
  function Scale(q: Quat, s: real): Quat
  {
    Quat(q.x * s, q.y * s, q.z * s, q.w * s)
  }

  /**
   * `q / s` and `q /= s`: a zero divisor is an error; otherwise every component
   * is divided, so multiplying back by `s` restores `q`.
   */
  function Div(q: Quat, s: real): (r: Result<Quat>)
    ensures r.Ok? <==> s != 0.0
    ensures r.Err? ==> r.error == DivisionByZero
    ensures r.Ok? ==> Scale(r.value, s) == q
    ensures r.Ok? ==> r.value == Scale(q, 1.0 / s)
  {
    if s == 0.0 then Err(DivisionByZero)
    else
      var d := Quat(q.x / s, q.y / s, q.z / s, q.w / s);
      QuotientCancels(q, s, d);
      Ok(d)
  }

  /**
   * Position of component `c` (index order x, y, z, w) in the order in which
   * `*=` and `/=` update the components: w first, then x, y and z.
   */
  function UpdateOrder(c: nat): (p: nat)
    requires c < 4
    ensures p < 4
    ensures c == 3 <==> p == 0
  {
    if c == 3 then 0 else c + 1
  }

  /**
   * `q *= s` where `s` refers to component `c` of `q` itself, as in `q *= q.W()`.
   * The scalar is taken by reference and read again for every component, so the
   * components updated up to and including `c` are multiplied by `s`, and the
   * ones updated after `c` are multiplied by the already squared `s * s`.
   */
  function ScaleBySelf(q: Quat, c: nat): Quat
    requires c < 4
  {
    var q1 := q.(w := q.w * Part(q, c));
    var q2 := q1.(x := q1.x * Part(q1, c));
    var q3 := q2.(y := q2.y * Part(q2, c));
    q3.(z := q3.z * Part(q3, c))
  }

  /** Component `c` in index order, read as the reference `q[c]` would read it. */
  function Part(q: Quat, c: nat): (v: real)
    requires c < 4
    ensures v == Components(q)[c]
  {
    if c == 0 then q.x else if c == 1 then q.y else if c == 2 then q.z else q.w
  }

  /**
   * `q /= s` where `s` refers to component `c` of `q` itself, as in `q /= q.W()`.
   * The guard sees the original value; after that, component `c` divides itself
   * to 1, so the components updated after it are divided by 1 and keep their values.
   */
  function DivBySelf(q: Quat, c: nat): (r: Result<Quat>)
    requires c < 4
    ensures r.Ok? <==> Components(q)[c] != 0.0
    ensures r.Err? ==> r.error == DivisionByZero
  {
    if Part(q, c) == 0.0 then Err(DivisionByZero)
    else
      var q1 := q.(w := q.w / Part(q, c));
      SelfQuotient(q, c, q1);
      var q2 := q1.(x := q1.x / Part(q1, c));
      var q3 := q2.(y := q2.y / Part(q2, c));
      Ok(q3.(z := q3.z / Part(q3, c)))
  }

  /** After the first update of `DivBySelf` the divisor it reads is still nonzero. */
  lemma SelfQuotient(q: Quat, c: nat, q1: Quat)
    requires c < 4 && Part(q, c) != 0.0
    requires q1 == q.(w := q.w / Part(q, c))
    ensures Part(q1, c) != 0.0
  {
    if c == 3 {
      assert q1.w == q.w / q.w == 1.0;
    }
  }

  /** `q *= q[0]`, written out. */
  lemma ScaleBySelfX(q: Quat)
    ensures ScaleBySelf(q, 0) == Quat(q.x * q.x, q.y * (q.x * q.x), q.z * (q.x * q.x), q.w * q.x)
  {
  }

  /** `q *= q[1]`, written out. */
  lemma ScaleBySelfY(q: Quat)
    ensures ScaleBySelf(q, 1) == Quat(q.x * q.y, q.y * q.y, q.z * (q.y * q.y), q.w * q.y)
  {
  }

  /** `q *= q[2]`, written out: z is updated last, so every component sees the original z. */
  lemma ScaleBySelfZ(q: Quat)
    ensures ScaleBySelf(q, 2) == Quat(q.x * q.z, q.y * q.z, q.z * q.z, q.w * q.z)
  {
  }

  /** `q *= q.W()`, written out: w is updated first, so x, y and z are multiplied by w * w. */
  lemma ScaleBySelfW(q: Quat)
    ensures ScaleBySelf(q, 3) == Quat(q.x * (q.w * q.w), q.y * (q.w * q.w), q.z * (q.w * q.w), q.w * q.w)
  {
  }

  /** The components `ScaleBySelf` updates up to and including `c` are multiplied by `s`. */
  lemma ScaleBySelfBefore(q: Quat, c: nat)
    requires c < 4
    ensures forall k :: 0 <= k < 4 && UpdateOrder(k) <= UpdateOrder(c) ==>
      Components(ScaleBySelf(q, c))[k] == Components(q)[k] * Components(q)[c]
  {
    forall k | 0 <= k < 4 && UpdateOrder(k) <= UpdateOrder(c)
      ensures Components(ScaleBySelf(q, c))[k] == Components(q)[k] * Components(q)[c]
    {
      if c == 0 {
        ScaleBySelfX(q);
      } else if c == 1 {
        ScaleBySelfY(q);
      } else if c == 2 {
        ScaleBySelfZ(q);
      } else {
        ScaleBySelfW(q);
      }
    }
  }

  /** The components `ScaleBySelf` updates after `c` are multiplied by `s * s`. */
  lemma ScaleBySelfAfter(q: Quat, c: nat)
    requires c < 4
    ensures forall k :: 0 <= k < 4 && UpdateOrder(c) < UpdateOrder(k) ==>
      Components(ScaleBySelf(q, c))[k] == Components(q)[k] * (Components(q)[c] * Components(q)[c])
  {
    forall k | 0 <= k < 4 && UpdateOrder(c) < UpdateOrder(k)
      ensures Components(ScaleBySelf(q, c))[k] == Components(q)[k] * (Components(q)[c] * Components(q)[c])
    {
      if c == 0 {
        ScaleBySelfX(q);
      } else if c == 1 {
        ScaleBySelfY(q);
      } else if c == 3 {
        ScaleBySelfW(q);
      }
    }
  }

  /** `q /= q[0]` with x nonzero, written out. */
  lemma DivBySelfX(q: Quat)
    requires q.x != 0.0
    ensures DivBySelf(q, 0) == Ok(Quat(1.0, q.y, q.z, q.w / q.x))
  {
    var r := DivBySelf(q, 0).value;
    assert r.w == q.w / q.x;
    assert r.x == 1.0 by { assert q.x / q.x == 1.0; }
    assert r.y == q.y by { assert q.y / 1.0 == q.y; }
    assert r.z == q.z by { assert q.z / 1.0 == q.z; }
  }

  /** `q /= q[1]` with y nonzero, written out. */
  lemma DivBySelfY(q: Quat)
    requires q.y != 0.0
    ensures DivBySelf(q, 1) == Ok(Quat(q.x / q.y, 1.0, q.z, q.w / q.y))
  {
    var r := DivBySelf(q, 1).value;
    assert r.w == q.w / q.y && r.x == q.x / q.y;
    assert r.y == 1.0 by { assert q.y / q.y == 1.0; }
    assert r.z == q.z by { assert q.z / 1.0 == q.z; }
  }

  /** `q /= q[2]` with z nonzero, written out: every component is divided by the original z. */
  lemma DivBySelfZ(q: Quat)
    requires q.z != 0.0
    ensures DivBySelf(q, 2) == Ok(Quat(q.x / q.z, q.y / q.z, 1.0, q.w / q.z))
  {
    assert q.z / q.z == 1.0;
  }

  /** `q /= q.W()` with w nonzero, written out: w becomes 1 and x, y, z are divided by 1. */
  lemma DivBySelfW(q: Quat)
    requires q.w != 0.0
    ensures DivBySelf(q, 3) == Ok(Quat(q.x, q.y, q.z, 1.0))
  {
    assert q.w / q.w == 1.0;
  }

  /** `DivBySelf` sets the aliased component to 1. */
  lemma DivBySelfOne(q: Quat, c: nat)
    requires c < 4
    ensures DivBySelf(q, c).Ok? ==> Components(DivBySelf(q, c).value)[c] == 1.0
  {
    if c == 0 && q.x != 0.0 {
      DivBySelfX(q);
    } else if c == 1 && q.y != 0.0 {
      DivBySelfY(q);
    } else if c == 2 && q.z != 0.0 {
      DivBySelfZ(q);
    } else if c == 3 && q.w != 0.0 {
      DivBySelfW(q);
    }
  }

  /** The components `DivBySelf` updates before `c` are divided by the original `s`. */
  lemma DivBySelfBefore(q: Quat, c: nat)
    requires c < 4
    ensures DivBySelf(q, c).Ok? ==> forall k :: 0 <= k < 4 && UpdateOrder(k) < UpdateOrder(c) ==>
      Components(DivBySelf(q, c).value)[k] == Components(q)[k] / Components(q)[c]
  {
    if c == 0 && q.x != 0.0 {
      DivBySelfX(q);
    } else if c == 1 && q.y != 0.0 {
      DivBySelfY(q);
    } else if c == 2 && q.z != 0.0 {
      DivBySelfZ(q);
    }
  }

  /** The components `DivBySelf` updates after `c` are divided by 1: they keep their values. */
  lemma DivBySelfAfter(q: Quat, c: nat)
    requires c < 4
    ensures DivBySelf(q, c).Ok? ==> forall k :: 0 <= k < 4 && UpdateOrder(c) < UpdateOrder(k) ==>
      Components(DivBySelf(q, c).value)[k] == Components(q)[k]
  {
    if c == 0 && q.x != 0.0 {
      DivBySelfX(q);
    } else if c == 1 && q.y != 0.0 {
      DivBySelfY(q);
    } else if c == 3 && q.w != 0.0 {
      DivBySelfW(q);
    }
  }

  /**
   * Aliasing z is harmless: z is updated last, so `q *= q[2]` and `q /= q[2]`
   * agree with scaling and dividing by a copy of z.
   */
  lemma LastUpdatedUnaliased(q: Quat)
    ensures ScaleBySelf(q, 2) == Scale(q, q.z)
    ensures DivBySelf(q, 2) == Div(q, q.z)
  {
    ScaleBySelfZ(q);
    if q.z != 0.0 {
      DivBySelfZ(q);
    }
  }

  /**
   * `q *= q[c]` agrees with scaling by a copy of `s` exactly when every
   * component updated after `c` is unchanged by the second factor of `s`.
   */
  lemma ScaleBySelfAgrees(q: Quat, c: nat)
    requires c < 4
    ensures ScaleBySelf(q, c) == Scale(q, Components(q)[c]) <==> SecondFactorHarmless(q, c)
  {
    if SecondFactorHarmless(q, c) {
      HarmlessSecondFactor(q, c);
    }
    AgreementNeedsHarmless(q, c);
  }

  /** Every component updated after `c` is the same whether multiplied by `s * s` or by `s`. */
  predicate SecondFactorHarmless(q: Quat, c: nat)
    requires c < 4
  {
    forall k :: 0 <= k < 4 && UpdateOrder(c) < UpdateOrder(k) ==>
      Components(q)[k] * (Components(q)[c] * Components(q)[c]) == Components(q)[k] * Components(q)[c]
  }

  /** If `q *= q[c]` agrees with scaling by a copy, the second factor of `s` changes nothing. */
  lemma AgreementNeedsHarmless(q: Quat, c: nat)
    requires c < 4
    ensures ScaleBySelf(q, c) == Scale(q, Components(q)[c]) ==> SecondFactorHarmless(q, c)
  {
    var s := Components(q)[c];
    if ScaleBySelf(q, c) == Scale(q, s) {
      ScaleBySelfAfter(q, c);
      ScaleComponents(q, s);
      forall k | 0 <= k < 4 && UpdateOrder(c) < UpdateOrder(k)
        ensures Components(q)[k] * (s * s) == Components(q)[k] * s
      {
        assert Components(ScaleBySelf(q, c))[k] == Components(q)[k] * (s * s);
        assert Components(Scale(q, s))[k] == Components(q)[k] * s;
      }
    }
  }

  /** If the second factor of `s` changes nothing, `q *= q[c]` agrees with scaling by a copy. */
  lemma HarmlessSecondFactor(q: Quat, c: nat)
    requires c < 4 && SecondFactorHarmless(q, c)
    ensures ScaleBySelf(q, c) == Scale(q, Components(q)[c])
  {
    var s := Components(q)[c];
    var r := ScaleBySelf(q, c);
    var t := Scale(q, s);
    forall k | 0 <= k < 4
      ensures Components(r)[k] == Components(t)[k]
    {
      ScaleComponents(q, s);
      if UpdateOrder(c) < UpdateOrder(k) {
        ScaleBySelfAfter(q, c);
        assert Components(q)[k] * (s * s) == Components(q)[k] * s;
      } else {
        ScaleBySelfBefore(q, c);
      }
    }
    assert r == Quat(Components(r)[0], Components(r)[1], Components(r)[2], Components(r)[3]);
  }

  /** Scaling multiplies every component, in index order. */
  lemma ScaleComponents(q: Quat, s: real)
    ensures forall k :: 0 <= k < 4 ==> Components(Scale(q, s))[k] == Components(q)[k] * s
  {
  }

  /** `q *= q.W()` on (1, 1, 1, 2) gives (4, 4, 4, 4), not the (2, 2, 2, 4) of scaling by 2. */
  lemma AliasedScaleExample()
    ensures ScaleBySelf(Quat(1.0, 1.0, 1.0, 2.0), 3) == Quat(4.0, 4.0, 4.0, 4.0)
    ensures Scale(Quat(1.0, 1.0, 1.0, 2.0), 2.0) == Quat(2.0, 2.0, 2.0, 4.0)
  {
    ScaleBySelfW(Quat(1.0, 1.0, 1.0, 2.0));
  }

  /** `q /= q.W()` on (2, 4, 6, 2) gives (2, 4, 6, 1), not the (1, 2, 3, 1) of dividing by 2. */
  lemma AliasedDivExample()
    ensures DivBySelf(Quat(2.0, 4.0, 6.0, 2.0), 3) == Ok(Quat(2.0, 4.0, 6.0, 1.0))
    ensures Div(Quat(2.0, 4.0, 6.0, 2.0), 2.0) == Ok(Quat(1.0, 2.0, 3.0, 1.0))
  {
    DivBySelfW(Quat(2.0, 4.0, 6.0, 2.0));
  }

  /** The Hamilton product `a * b` and `a *= b`. */
  function Mul(a: Quat, b: Quat): Quat
  {
    Quat(a.w * b.x + a.x * b.w + a.y * b.z - a.z * b.y,
         a.w * b.y - a.x * b.z + a.y * b.w + a.z * b.x,
         a.w * b.z + a.x * b.y - a.y * b.x + a.z * b.w,
         a.w * b.w - a.x * b.x - a.y * b.y - a.z * b.z)
  }

  /** x*x + y*y + z*z + w*w: never negative, and zero exactly for the zero quaternion. */
  function SquaredNorm(q: Quat): (n: real)
    ensures n >= 0.0
    ensures n == 0.0 <==> q == Zero
  {
    SumOfSquares(q);
    Sq(q.x) + Sq(q.y) + Sq(q.z) + Sq(q.w)
  }

  /** The returning form: vector part negated, scalar part kept. */
  function Conjugated(q: Quat): Quat
  {
    Quat(-q.x, -q.y, -q.z, q.w)
  }

  /** The in-place form, which multiplies x, y and z by -1; it lands on the same value as `Conjugated`. */
  function Conjugate(q: Quat): (r: Quat)
    ensures r == Conjugated(q)
  {
    Quat(q.x * -1.0, q.y * -1.0, q.z * -1.0, q.w)
  }

  /**
   * `Inversed()` and the in-place `Inverse()`: the conjugate divided by the
   * squared norm, which fails (through scalar division) exactly for the zero quaternion.
   */
  function Inversed(q: Quat): (r: Result<Quat>)
    ensures r.Ok? <==> q != Zero
    ensures r.Err? ==> r.error == DivisionByZero
    ensures r.Ok? ==> Scale(r.value, SquaredNorm(q)) == Conjugated(q)
  {
    Div(Conjugated(q), SquaredNorm(q))
  }

  /** The free function `Dot`, summed in the source's w, x, y, z order. */
  function Dot(a: Quat, b: Quat): real
  {
    a.w * b.w + a.x * b.x + a.y * b.y + a.z * b.z
  }

  /** Unnormalised linear interpolation (1 - t) * a + t * b, for any t. */
  function Lerp(a: Quat, b: Quat, t: real): Quat
  {
    Quat((1.0 - t) * a.x + t * b.x,
         (1.0 - t) * a.y + t * b.y,
         (1.0 - t) * a.z + t * b.z,
         (1.0 - t) * a.w + t * b.w)
  }

  /** The square of a component. */
  function Sq(v: real): real
  {
    v * v
  }

  /** A real square is never negative, and positive away from zero. */
  lemma SquareNonNegative(v: real)
    ensures Sq(v) >= 0.0
    ensures v != 0.0 ==> Sq(v) > 0.0
  {
    if v > 0.0 {
      calc {
        Sq(v);
        == v * v;
        > 0.0 * v;
      }
    } else if v < 0.0 {
      calc {
        Sq(v);
        == (-v) * (-v);
        > 0.0 * (-v);
      }
    }
  }

  /** The sum of the four squares is positive unless every component is zero. */
  lemma SumOfSquares(q: Quat)
    ensures Sq(q.x) + Sq(q.y) + Sq(q.z) + Sq(q.w) >= 0.0
    ensures Sq(q.x) + Sq(q.y) + Sq(q.z) + Sq(q.w) == 0.0 <==> q == Zero
  {
    SquareNonNegative(q.x);
    SquareNonNegative(q.y);
    SquareNonNegative(q.z);
    SquareNonNegative(q.w);
    if q.x == 0.0 && q.y == 0.0 && q.z == 0.0 && q.w == 0.0 {
      assert q == Zero;
    }
  }

  /** Componentwise division by a nonzero real is undone by scaling back. */
  lemma QuotientCancels(q: Quat, s: real, d: Quat)
    requires s != 0.0
    requires d == Quat(q.x / s, q.y / s, q.z / s, q.w / s)
    ensures Scale(d, s) == q
    ensures d == Scale(q, 1.0 / s)
  {
    DivisionCancels(q.x, s);
    DivisionCancels(q.y, s);
    DivisionCancels(q.z, s);
    DivisionCancels(q.w, s);
    assert Scale(d, s).x == q.x && Scale(d, s).y == q.y;
    assert Scale(d, s).z == q.z && Scale(d, s).w == q.w;
    assert d.x == Scale(q, 1.0 / s).x && d.y == Scale(q, 1.0 / s).y;
    assert d.z == Scale(q, 1.0 / s).z && d.w == Scale(q, 1.0 / s).w;
  }

  /** Dividing by a nonzero real is undone by multiplying back, and is multiplication by the reciprocal. */
  lemma DivisionCancels(v: real, s: real)
    requires s != 0.0
    ensures (v / s) * s == v
    ensures v / s == v * (1.0 / s)
  {
  }
}

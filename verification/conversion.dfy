/**
 * How Quaternion<int> and Quaternion<double> meet. A binary free operator
 * converts its left operand to the common type (int and double meet in double)
 * and computes there; a compound assignment keeps the type of its left operand
 * and converts the right operand to it first, which for an int left operand
 * means `static_cast<int>` truncation toward zero.
 */
module Conversion {
  import opened Errors
  import opened Quaternions
  import A = Arithmetic
  import G = Algebra
  import E = Expansions
  import IQ = IntQuaternion

  /** `static_cast<int>` of a double: the fractional part is dropped, rounding toward zero. */
  function Trunc(r: real): (n: int)
    ensures r >= 0.0 ==> 0 <= n && n as real <= r < n as real + 1.0
    ensures r <= 0.0 ==> n <= 0 && n as real - 1.0 < r <= n as real
  {
    if r >= 0.0 then r.Floor else -((-r).Floor)
  }

  /** A real whose fractional part is zero. */
  predicate IsWhole(r: real)
  {
    r.Floor as real == r
  }

  /** A double quaternion whose four components are whole numbers. */
  predicate IsIntegral(q: Quat)
  {
    IsWhole(q.x) && IsWhole(q.y) && IsWhole(q.z) && IsWhole(q.w)
  }

  /** Conversion of an int quaternion to the common type double: exact. */
  function Promote(q: IQ.IntQuat): Quat
  {
    Quat(q.x as real, q.y as real, q.z as real, q.w as real)
  }

  /** The conversion operator from Quaternion<double> to Quaternion<int>: each component is truncated. */
  function Demote(q: Quat): IQ.IntQuat
  {
    IQ.IntQuat(Trunc(q.x), Trunc(q.y), Trunc(q.z), Trunc(q.w))
  }

  /** Truncation leaves whole numbers alone, and only they. */
  lemma TruncWhole(r: real)
    ensures IsWhole(r) <==> Trunc(r) as real == r
  {
    if r < 0.0 {
      var n := (-r).Floor;
      if IsWhole(r) {
        FloorOfInteger(-r.Floor);
      } else if Trunc(r) as real == r {
        FloorOfInteger(-n);
      }
    }
  }

  /** An integer converted to real floors back to itself. */
  lemma FloorOfInteger(n: int)
    ensures (n as real).Floor == n
  {
  }

  /** Truncating a promoted integer gives the integer back. */
  lemma TruncOfInteger(n: int)
    ensures Trunc(n as real) == n
  {
  }

  /** Promotion then demotion is the identity; demotion then promotion is the identity exactly on integral quaternions. */
  lemma PromoteDemote(q: IQ.IntQuat, p: Quat)
    ensures Demote(Promote(q)) == q
    ensures IsIntegral(Promote(q))
    ensures IsIntegral(p) <==> Promote(Demote(p)) == p
  {
    TruncOfInteger(q.x);
    TruncOfInteger(q.y);
    TruncOfInteger(q.z);
    TruncOfInteger(q.w);
    TruncWhole(p.x);
    TruncWhole(p.y);
    TruncWhole(p.z);
    TruncWhole(p.w);
  }

  /** Promotion is injective, so an equation between promoted values holds between the int values. */
  lemma PromoteInjective(a: IQ.IntQuat, b: IQ.IntQuat)
    ensures Promote(a) == Promote(b) <==> a == b
  {
    PromoteDemote(a, Promote(a));
    PromoteDemote(b, Promote(b));
  }

  /**
   * Every int operation except division is the double operation on promoted
   * values: int arithmetic on quaternions is exact (components are unbounded here).
   */
  lemma PromoteHomomorphism(a: IQ.IntQuat, b: IQ.IntQuat, s: int)
    ensures Promote(IQ.Add(a, b)) == A.Add(Promote(a), Promote(b))
    ensures Promote(IQ.Sub(a, b)) == A.Sub(Promote(a), Promote(b))
    ensures Promote(IQ.Neg(a)) == A.Neg(Promote(a))
    ensures Promote(IQ.Conjugated(a)) == A.Conjugated(Promote(a))
    ensures Promote(IQ.Scale(a, s)) == A.Scale(Promote(a), s as real)
  {
  }

  /** The int dot product and squared norm are the double ones on promoted values. */
  lemma PromoteProducts(a: IQ.IntQuat, b: IQ.IntQuat)
    ensures IQ.SquaredNorm(a) as real == A.SquaredNorm(Promote(a))
    ensures IQ.Dot(a, b) as real == A.Dot(Promote(a), Promote(b))
  {
    RealProduct(a.x, a.x);
    RealProduct(a.y, a.y);
    RealProduct(a.z, a.z);
    RealProduct(a.w, a.w);
    RealProduct(a.x, b.x);
    RealProduct(a.y, b.y);
    RealProduct(a.z, b.z);
    RealProduct(a.w, b.w);
  }

  /** The int interpolation is the double one on promoted values. */
  lemma PromoteLerp(a: IQ.IntQuat, b: IQ.IntQuat, t: int)
    ensures Promote(IQ.Lerp(a, b, t)) == A.Lerp(Promote(a), Promote(b), t as real)
  {
    LerpComponent(a.x, b.x, t);
    LerpComponent(a.y, b.y, t);
    LerpComponent(a.z, b.z, t);
    LerpComponent(a.w, b.w, t);
  }

  /** One interpolated component, converted to double. */
  lemma LerpComponent(u: int, v: int, t: int)
    ensures ((1 - t) * u + t * v) as real == (1.0 - t as real) * (u as real) + (t as real) * (v as real)
  {
    RealProduct(1 - t, u);
    RealProduct(t, v);
  }

  /** Converting a product to double is multiplying the converted factors. */
  lemma RealProduct(m: int, n: int)
    ensures (m * n) as real == m as real * n as real
  {
  }

  /** The Hamilton product over int is the product over double on promoted values. */
  lemma PromoteMul(a: IQ.IntQuat, b: IQ.IntQuat)
    ensures Promote(IQ.Mul(a, b)) == A.Mul(Promote(a), Promote(b))
  {
    var p, q := Promote(a), Promote(b);
    RealProducts(a.w, a.x, a.y, a.z, b.x);
    RealProducts(a.w, a.x, a.y, a.z, b.y);
    RealProducts(a.w, a.x, a.y, a.z, b.z);
    RealProducts(a.w, a.x, a.y, a.z, b.w);
    E.MulParts(p, q);
  }

  /** Four products with a common factor, converted to double. */
  lemma RealProducts(a: int, b: int, c: int, d: int, n: int)
    ensures (a * n) as real == a as real * n as real
    ensures (b * n) as real == b as real * n as real
    ensures (c * n) as real == c as real * n as real
    ensures (d * n) as real == d as real * n as real
  {
    RealProduct(a, n);
    RealProduct(b, n);
    RealProduct(c, n);
    RealProduct(d, n);
  }

  /** The int Hamilton product is associative, carried over from the double product. */
  lemma IntMulAssociative(a: IQ.IntQuat, b: IQ.IntQuat, c: IQ.IntQuat)
    ensures IQ.Mul(IQ.Mul(a, b), c) == IQ.Mul(a, IQ.Mul(b, c))
  {
    PromoteMul(a, b);
    PromoteMul(IQ.Mul(a, b), c);
    PromoteMul(b, c);
    PromoteMul(a, IQ.Mul(b, c));
    G.MulAssociative(Promote(a), Promote(b), Promote(c));
    PromoteInjective(IQ.Mul(IQ.Mul(a, b), c), IQ.Mul(a, IQ.Mul(b, c)));
  }

  /**
   * `q += other` on an int quaternion with a double right operand: the operand
   * is truncated first, then added. The result is within 1 of the exact sum in
   * every component.
   */
  function AddAssignReal(q: IQ.IntQuat, other: Quat): (r: IQ.IntQuat)
    ensures Promote(r) == A.Add(Promote(q), Promote(Demote(other)))
  {
    PromoteHomomorphism(q, Demote(other), 0);
    IQ.Add(q, Demote(other))
  }

  /** `q -= other` on an int quaternion with a double right operand: truncate, then subtract. */
  function SubAssignReal(q: IQ.IntQuat, other: Quat): (r: IQ.IntQuat)
    ensures Promote(r) == A.Sub(Promote(q), Promote(Demote(other)))
  {
    PromoteHomomorphism(q, Demote(other), 0);
    IQ.Sub(q, Demote(other))
  }

  /** `q *= other` on an int quaternion with a double right operand: truncate, then take the Hamilton product. */
  function MulAssignReal(q: IQ.IntQuat, other: Quat): (r: IQ.IntQuat)
    ensures Promote(r) == A.Mul(Promote(q), Promote(Demote(other)))
  {
    PromoteMul(q, Demote(other));
    IQ.Mul(q, Demote(other))
  }

  /** `q *= s` on an int quaternion with a double scalar: the scalar is truncated, then multiplies each component. */
  function ScaleAssignReal(q: IQ.IntQuat, s: real): (r: IQ.IntQuat)
    ensures Promote(r) == A.Scale(Promote(q), Trunc(s) as real)
  {
    PromoteHomomorphism(q, q, Trunc(s));
    IQ.Scale(q, Trunc(s))
  }

  /**
   * Compound assignments with an integral double operand lose nothing: they
   * agree with the free operators, which compute in double.
   */
  lemma CompoundExactOnIntegral(q: IQ.IntQuat, other: Quat, s: real)
    requires IsIntegral(other) && IsWhole(s)
    ensures Promote(AddAssignReal(q, other)) == A.Add(Promote(q), other)
    ensures Promote(SubAssignReal(q, other)) == A.Sub(Promote(q), other)
    ensures Promote(MulAssignReal(q, other)) == A.Mul(Promote(q), other)
    ensures Promote(ScaleAssignReal(q, s)) == A.Scale(Promote(q), s)
  {
    PromoteDemote(q, other);
    TruncWhole(s);
  }

  /**
   * With a fractional operand the compound assignment and the free operator part
   * ways, but by less than 1 in each component: only the operand's fraction is lost.
   */
  lemma AddAssignNearFree(q: IQ.IntQuat, other: Quat)
    ensures Within1(Promote(AddAssignReal(q, other)), A.Add(Promote(q), other))
    ensures Within1(Promote(SubAssignReal(q, other)), A.Sub(Promote(q), other))
  {
  }

  /** Each component of a lies strictly within 1 of the matching component of b. */
  predicate Within1(a: Quat, b: Quat)
  {
    -1.0 < a.x - b.x < 1.0 && -1.0 < a.y - b.y < 1.0 &&
    -1.0 < a.z - b.z < 1.0 && -1.0 < a.w - b.w < 1.0
  }

  /**
   * The divisor `q /= s` uses on an int quaternion, as written: the guard
   * rejects only a divisor that equals zero before conversion, and the divisor
   * actually used is the truncated one.
   */
  function DivisorAsWritten(s: real): (r: Result<int>)
    ensures r.Ok? <==> s != 0.0
    ensures r.Err? ==> r.error == DivisionByZero
    ensures r.Ok? ==> r.value == Trunc(s)
    ensures r.Ok? ==> -1.0 < s < 1.0 ==> r.value == 0
  {
    if s == 0.0 then Err(DivisionByZero) else Ok(Trunc(s))
  }

  /** Every fraction strictly between -1 and 1 other than 0 passes the guard and becomes an integer divisor of 0. */
  lemma GuardAdmitsZeroDivisor(s: real)
    requires s != 0.0 && -1.0 < s < 1.0
    ensures DivisorAsWritten(s) == Ok(0)
  {
  }

  /** The concrete case: an int quaternion divided in place by 0.5. */
  lemma HalfIsAdmitted()
    ensures DivisorAsWritten(0.5) == Ok(0)
  {
    GuardAdmitsZeroDivisor(0.5);
  }

  /**
   * The divisor with the guard applied after conversion: a double divisor is
   * usable exactly when it is at least 1 in magnitude, and a usable divisor is never 0.
   */
  function Divisor(s: real): (r: Result<int>)
    ensures r.Ok? <==> s <= -1.0 || 1.0 <= s
    ensures r.Err? ==> r.error == DivisionByZero
    ensures r.Ok? ==> r.value == Trunc(s)
    ensures r.Ok? ==> r.value != 0 && -1.0 < s - r.value as real < 1.0
  {
    if Trunc(s) == 0 then Err(DivisionByZero) else Ok(Trunc(s))
  }

  /** `q /= s` on an int quaternion with a double divisor: each component is divided, truncating, by the truncated divisor. */
  function DivAssignReal(q: IQ.IntQuat, s: real): (r: Result<IQ.IntQuat>)
    ensures r.Ok? <==> Trunc(s) != 0
    ensures r.Err? ==> r.error == DivisionByZero
    ensures r.Ok? ==> forall c :: 0 <= c < 4 ==> IQ.IsTruncatedQuotient(IQ.Part(q, c), Trunc(s), IQ.Part(r.value, c))
  {
    match Divisor(s)
    case Err(e) => Err(e)
    case Ok(d) => IQ.Div(q, d)
  }

  /** Where the guard as written lets a divisor through, the corrected guard agrees unless the converted divisor is 0. */
  lemma DivisorCorrectsGuard(s: real)
    ensures Divisor(s).Ok? ==> DivisorAsWritten(s) == Divisor(s)
    ensures DivisorAsWritten(s).Ok? && Divisor(s).Err? <==> s != 0.0 && -1.0 < s < 1.0
  {
  }

  /** An integral divisor loses nothing: the in-place division is the int division by it. */
  lemma DivAssignIntegral(q: IQ.IntQuat, n: int)
    ensures DivAssignReal(q, n as real) == IQ.Div(q, n)
  {
    TruncOfInteger(n);
  }

  /** operator== between an int and a double quaternion: components are compared after promotion to double. */
  function MixedEqual(a: IQ.IntQuat, b: Quat): (r: bool)
    ensures r <==> Promote(a) == b
    ensures r ==> IsIntegral(b) && Demote(b) == a
  {
    PromoteDemote(a, b);
    a.w as real == b.w && a.x as real == b.x && a.y as real == b.y && a.z as real == b.z
  }

  /** A binary free operator with an int and a double operand: the int operand is promoted, the result is double. */
  function MixedAdd(a: IQ.IntQuat, b: Quat): Quat
  {
    A.Add(Promote(a), b)
  }

  /** `a - b` with an int and a double operand, computed in double. */
  function MixedSub(a: IQ.IntQuat, b: Quat): Quat
  {
    A.Sub(Promote(a), b)
  }

  /** `a * b` with an int and a double operand, computed in double. */
  function MixedMul(a: IQ.IntQuat, b: Quat): Quat
  {
    A.Mul(Promote(a), b)
  }

  /** `q * s` and `s * q` with an int quaternion and a double scalar, computed in double. */
  function MixedScale(a: IQ.IntQuat, s: real): Quat
  {
    A.Scale(Promote(a), s)
  }

  /** `q / s` with an int quaternion and a double scalar, computed in double. */
  function MixedDiv(a: IQ.IntQuat, s: real): Result<Quat>
  {
    A.Div(Promote(a), s)
  }

  /**
   * The mixed free operators agree with the int operators whenever the double
   * operand is integral (division aside, which truncates over int).
   */
  lemma MixedAgreesWithInt(a: IQ.IntQuat, b: IQ.IntQuat, s: int)
    ensures MixedAdd(a, Promote(b)) == Promote(IQ.Add(a, b))
    ensures MixedSub(a, Promote(b)) == Promote(IQ.Sub(a, b))
    ensures MixedMul(a, Promote(b)) == Promote(IQ.Mul(a, b))
    ensures MixedScale(a, s as real) == Promote(IQ.Scale(a, s))
    ensures s != 0 ==> MixedDiv(a, s as real).Ok? && A.Scale(MixedDiv(a, s as real).value, s as real) == Promote(a)
  {
    PromoteHomomorphism(a, b, s);
    PromoteMul(a, b);
  }
}

/** Ring and field laws of the real quaternion operations. */
module Algebra {
  import opened Errors
  import opened Quaternions
  import opened Arithmetic
  import opened Expansions

  /** The basis quaternions i, j and k. */
  const I: Quat := Quat(1.0, 0.0, 0.0, 0.0)
  const J: Quat := Quat(0.0, 1.0, 0.0, 0.0)
  const K: Quat := Quat(0.0, 0.0, 1.0, 0.0)

  /** The Hamilton sign convention: i^2 = j^2 = k^2 = -1, ij = k = -ji, jk = i = -kj, ki = j = -ik. */
  lemma HamiltonBasis()
    ensures Mul(I, I) == Neg(One) && Mul(J, J) == Neg(One) && Mul(K, K) == Neg(One)
    ensures Mul(I, J) == K && Mul(J, I) == Neg(K)
    ensures Mul(J, K) == I && Mul(K, J) == Neg(I)
    ensures Mul(K, I) == J && Mul(I, K) == Neg(J)
  {
  }

  /** (0, 0, 0, 1) is a two-sided identity of the Hamilton product. */
  lemma MulIdentity(q: Quat)
    ensures Mul(q, One) == q && Mul(One, q) == q
  {
  }

  /** The Hamilton product is associative. */
  lemma MulAssociative(a: Quat, b: Quat, c: Quat)
    ensures Mul(Mul(a, b), c) == Mul(a, Mul(b, c))
  {
    AssociativeX(a, b, c);
    AssociativeY(a, b, c);
    AssociativeZ(a, b, c);
    AssociativeW(a, b, c);
  }

  /** The Hamilton product distributes over addition in its right factor. */
  lemma MulDistributesRight(a: Quat, b: Quat, c: Quat)
    ensures Mul(a, Add(b, c)) == Add(Mul(a, b), Mul(a, c))
  {
    SumRightX(a, b, c);
    SumRightY(a, b, c);
    SumRightZ(a, b, c);
    SumRightW(a, b, c);
  }

  /** The Hamilton product distributes over addition in its left factor. */
  lemma MulDistributesLeft(a: Quat, b: Quat, c: Quat)
    ensures Mul(Add(a, b), c) == Add(Mul(a, c), Mul(b, c))
  {
    SumLeftX(a, b, c);
    SumLeftY(a, b, c);
    SumLeftZ(a, b, c);
    SumLeftW(a, b, c);
  }

  /** A scalar on the left factor moves out of the Hamilton product. */
  lemma MulScaleLeft(a: Quat, b: Quat, s: real)
    ensures Mul(Scale(a, s), b) == Scale(Mul(a, b), s)
  {
    ScaledLeftX(a, b, s);
    ScaledLeftY(a, b, s);
    ScaledLeftZ(a, b, s);
    ScaledLeftW(a, b, s);
    ScaleParts(Mul(a, b), s);
  }

  /** A scalar on the right factor moves out of the Hamilton product. */
  lemma MulScaleRight(a: Quat, b: Quat, s: real)
    ensures Mul(a, Scale(b, s)) == Scale(Mul(a, b), s)
  {
    ScaledRightX(a, b, s);
    ScaledRightY(a, b, s);
    ScaledRightZ(a, b, s);
    ScaledRightW(a, b, s);
    ScaleParts(Mul(a, b), s);
  }

  /** A quaternion times its conjugate (either order) is its squared norm on the scalar part. */
  lemma MulConjugate(q: Quat)
    ensures Mul(q, Conjugated(q)) == Quat(0.0, 0.0, 0.0, SquaredNorm(q))
    ensures Mul(Conjugated(q), q) == Quat(0.0, 0.0, 0.0, SquaredNorm(q))
  {
  }

  /** Conjugation is an involution and is additive. */
  lemma ConjugateLaws(a: Quat, b: Quat)
    ensures Conjugated(Conjugated(a)) == a
    ensures Conjugated(Add(a, b)) == Add(Conjugated(a), Conjugated(b))
    ensures Conjugated(Neg(a)) == Neg(Conjugated(a))
  {
  }

  /** Conjugation reverses products: conj(ab) = conj(b) conj(a). */
  lemma ConjugateReversesProducts(a: Quat, b: Quat)
    ensures Conjugated(Mul(a, b)) == Mul(Conjugated(b), Conjugated(a))
  {
    ProductOfConjugatesX(a, b);
    ProductOfConjugatesY(a, b);
    ProductOfConjugatesZ(a, b);
    ProductOfConjugatesW(a, b);
  }

  /** Every nonzero quaternion has a two-sided inverse, and it is what `Inversed` returns. */
  lemma InverseIsTwoSided(q: Quat)
    requires q != Zero
    ensures Inversed(q).Ok?
    ensures Mul(q, Inversed(q).value) == One
    ensures Mul(Inversed(q).value, q) == One
  {
    var n := SquaredNorm(q);
    var inv := Inversed(q).value;
    assert inv == Scale(Conjugated(q), 1.0 / n);
    MulScaleRight(q, Conjugated(q), 1.0 / n);
    MulScaleLeft(Conjugated(q), q, 1.0 / n);
    MulConjugate(q);
    assert n * (1.0 / n) == 1.0;
  }

  /** Addition, subtraction and unary minus act componentwise and form an abelian group with zero Zero. */
  lemma AdditiveGroup(a: Quat, b: Quat, c: Quat)
    ensures Add(a, b) == Add(b, a)
    ensures Add(Add(a, b), c) == Add(a, Add(b, c))
    ensures Add(a, Zero) == a
    ensures Add(a, Neg(a)) == Zero
    ensures Sub(a, b) == Add(a, Neg(b))
    ensures Sub(Add(a, b), b) == a
    ensures Neg(Neg(a)) == a
  {
  }

  /** Unary minus is scaling by -1, scaling distributes over addition, and 1 scales to the same value. */
  lemma ScaleLaws(a: Quat, b: Quat, s: real)
    ensures Neg(a) == Scale(a, -1.0)
    ensures Scale(Add(a, b), s) == Add(Scale(a, s), Scale(b, s))
    ensures Scale(a, 1.0) == a
  {
    ScaleParts(Add(a, b), s);
    SumScaled(Add(a, b), a, b, s);
  }

  /** A scalar distributes over a componentwise sum, one component at a time. */
  lemma SumScaled(d: Quat, a: Quat, b: Quat, s: real)
    requires d.x == a.x + b.x && d.y == a.y + b.y && d.z == a.z + b.z && d.w == a.w + b.w
    ensures d.x * s == a.x * s + b.x * s && d.y * s == a.y * s + b.y * s
    ensures d.z * s == a.z * s + b.z * s && d.w * s == a.w * s + b.w * s
  {
  }

  /** Scaling twice is scaling by the product. */
  lemma ScaleComposes(a: Quat, s: real, t: real)
    ensures Scale(Scale(a, s), t) == Scale(a, s * t)
  {
    ScaleParts(Scale(a, s), t);
    ScaleParts(a, s);
    ScaleParts(a, s * t);
  }

  /** `Dot` is symmetric, and a quaternion dotted with itself is its squared norm. */
  lemma DotLaws(a: Quat, b: Quat)
    ensures Dot(a, b) == Dot(b, a)
    ensures Dot(a, a) == SquaredNorm(a)
  {
  }

  /** `Dot(a, b)` is the scalar part of a conj(b). */
  lemma DotAsProduct(a: Quat, b: Quat)
    ensures Dot(a, b) == Mul(a, Conjugated(b)).w
  {
    ConjugatedRightW(a, b);
  }

  /** `Lerp` is the affine combination (1 - t) a + t b, and hits a at t = 0 and b at t = 1. */
  lemma LerpLaws(a: Quat, b: Quat, t: real)
    ensures Lerp(a, b, t) == Add(Scale(a, 1.0 - t), Scale(b, t))
    ensures Lerp(a, b, 0.0) == a
    ensures Lerp(a, b, 1.0) == b
    ensures Lerp(a, a, t) == a
  {
  }

  /** The squared norm is multiplicative: N(ab) = N(a) N(b). */
  lemma SquaredNormMultiplicative(a: Quat, b: Quat)
    ensures SquaredNorm(Mul(a, b)) == SquaredNorm(a) * SquaredNorm(b)
  {
    var p := Mul(a, b);
    var na, nb := SquaredNorm(a), SquaredNorm(b);
    // p * conj(p) = a * (b * conj(b)) * conj(a) = a * (nb * 1) * conj(a) = nb * (a * conj(a))
    calc {
      Quat(0.0, 0.0, 0.0, SquaredNorm(p));
      { MulConjugate(p); }
      Mul(p, Conjugated(p));
      { ConjugateReversesProducts(a, b); }
      Mul(Mul(a, b), Mul(Conjugated(b), Conjugated(a)));
      { MulAssociative(a, b, Mul(Conjugated(b), Conjugated(a))); }
      Mul(a, Mul(b, Mul(Conjugated(b), Conjugated(a))));
      { MulAssociative(b, Conjugated(b), Conjugated(a)); }
      Mul(a, Mul(Mul(b, Conjugated(b)), Conjugated(a)));
      { MulConjugate(b); assert Mul(b, Conjugated(b)) == Scale(One, nb); }
      Mul(a, Mul(Scale(One, nb), Conjugated(a)));
      { MulScaleLeft(One, Conjugated(a), nb); MulIdentity(Conjugated(a)); }
      Mul(a, Scale(Conjugated(a), nb));
      { MulScaleRight(a, Conjugated(a), nb); }
      Scale(Mul(a, Conjugated(a)), nb);
      { MulConjugate(a); }
      Scale(Quat(0.0, 0.0, 0.0, na), nb);
    }
  }

  /** For a unit quaternion the inverse is just the conjugate. */
  lemma UnitInverseIsConjugate(q: Quat)
    requires SquaredNorm(q) == 1.0
    ensures Inversed(q) == Ok(Conjugated(q))
  {
    ScaleLaws(Conjugated(q), Conjugated(q), 1.0);
  }

  /** Inverting twice gives back the original nonzero quaternion. */
  lemma InverseInvolution(q: Quat)
    requires q != Zero
    ensures Inversed(q).Ok?
    ensures Inversed(Inversed(q).value) == Ok(q)
  {
    var inv := Inversed(q).value;
    InverseIsTwoSided(q);
    assert inv != Zero by {
      assert Mul(q, Zero) == Zero;
    }
    var inv2 := Inversed(inv).value;
    InverseIsTwoSided(inv);
    // inv2 = inv2 * (inv * q) = (inv2 * inv) * q = q
    calc {
      inv2;
      { MulIdentity(inv2); }
      Mul(inv2, One);
      Mul(inv2, Mul(inv, q));
      { MulAssociative(inv2, inv, q); }
      Mul(Mul(inv2, inv), q);
      Mul(One, q);
      { MulIdentity(q); }
      q;
    }
  }
}

/**
 * The concrete values the library's own test suite expects, stated against
 * the model, one lemma per test section.
 */
module SourceExamples {
  import opened Errors
  import opened Quaternions
  import A = Arithmetic
  import G = Algebra
  import IQ = IntQuaternion
  import C = Conversion

  /** A list of five values is rejected. */
  lemma FiveValuesRejected()
    ensures FromList([1.0, 2.0, 3.0, 4.0, 5.0]) == Err(InvalidQuaternionSize)
  {
  }

  /** Conjugating (1, 2, 3, 4) in either form gives (-1, -2, -3, 4). */
  lemma ConjugationExample()
    ensures A.Conjugated(Quat(1.0, 2.0, 3.0, 4.0)) == Quat(-1.0, -2.0, -3.0, 4.0)
    ensures A.Conjugate(Quat(1.0, 2.0, 3.0, 4.0)) == Quat(-1.0, -2.0, -3.0, 4.0)
  {
  }

  /** The inverse of (1, 2, 3, 4) is (-1, -2, -3, 4) / 30. */
  lemma InversionExample()
    ensures A.Inversed(Quat(1.0, 2.0, 3.0, 4.0)) == Ok(Quat(-1.0 / 30.0, -2.0 / 30.0, -3.0 / 30.0, 4.0 / 30.0))
  {
  }

  /** Converting the int quaternion (1, 2, 3, 4) to double keeps every component. */
  lemma ConversionExample()
    ensures C.Promote(IQ.IntQuat(1, 2, 3, 4)) == Quat(1.0, 2.0, 3.0, 4.0)
  {
  }

  /** `+=` between double quaternions. */
  lemma RealAddAssignExample()
    ensures A.Add(Quat(1.0, 2.0, 3.0, 4.0), Quat(0.5, -1.0, 1.0, 0.0)) == Quat(1.5, 1.0, 4.0, 4.0)
  {
  }

  /** `+=` of a double quaternion into an int one truncates the operand first. */
  lemma MixedAddAssignExample()
    ensures C.AddAssignReal(IQ.IntQuat(4, 3, 5, 7), Quat(5.2, 23.6, 2.8, 5.4)) == IQ.IntQuat(9, 26, 7, 12)
  {
  }

  /** `-=` between double quaternions. */
  lemma RealSubAssignExample()
    ensures A.Sub(Quat(1.0, 2.0, 3.0, 4.0), Quat(0.5, -1.0, 1.0, 0.0)) == Quat(0.5, 3.0, 2.0, 4.0)
  {
  }

  /** `-=` of a double quaternion from an int one truncates the operand first. */
  lemma MixedSubAssignExample()
    ensures C.SubAssignReal(IQ.IntQuat(4, 3, 5, 7), Quat(2.1, 1.5, 4.6, 1.5)) == IQ.IntQuat(2, 2, 1, 6)
  {
  }

  /** `+` between int quaternions. */
  lemma IntAdditionExample()
    ensures IQ.Add(IQ.IntQuat(1, 2, 3, 4), IQ.IntQuat(2, 5, 3, 1)) == IQ.IntQuat(3, 7, 6, 5)
  {
  }

  /** `+` of an int and a double quaternion computes in double and keeps the fractions. */
  lemma MixedAdditionExample()
    ensures C.MixedAdd(IQ.IntQuat(1, 3, 4, 2), Quat(2.3, 5.4, 3.8, 1.6)) == Quat(3.3, 8.4, 7.8, 3.6)
  {
  }

  /** `-` between int quaternions. */
  lemma IntSubtractionExample()
    ensures IQ.Sub(IQ.IntQuat(1, 7, 3, 4), IQ.IntQuat(2, 5, 3, 1)) == IQ.IntQuat(-1, 2, 0, 3)
  {
  }

  /** `-` of an int and a double quaternion computes in double. */
  lemma MixedSubtractionExample()
    ensures C.MixedSub(IQ.IntQuat(6, 7, 4, 4), Quat(2.5, 5.5, 3.5, 1.5)) == Quat(3.5, 1.5, 0.5, 2.5)
  {
  }

  /** `*=` of an int quaternion by an int scalar. */
  lemma IntScaleAssignExample()
    ensures IQ.Scale(IQ.IntQuat(6, 7, 3, 4), 2) == IQ.IntQuat(12, 14, 6, 8)
  {
  }

  /** `*=` of an int quaternion by 2.5 multiplies by 2, and the result equals the double (12, 16, 2, 6). */
  lemma MixedScaleAssignExample()
    ensures C.ScaleAssignReal(IQ.IntQuat(6, 8, 1, 3), 2.5) == IQ.IntQuat(12, 16, 2, 6)
    ensures C.MixedEqual(C.ScaleAssignReal(IQ.IntQuat(6, 8, 1, 3), 2.5), Quat(12.0, 16.0, 2.0, 6.0))
  {
  }

  /** `/=` of an int quaternion by an int scalar truncates each quotient. */
  lemma IntDivAssignExample()
    ensures IQ.Div(IQ.IntQuat(6, 8, 1, 3), 2) == Ok(IQ.IntQuat(3, 4, 0, 1))
  {
  }

  /** `/=` of a double quaternion by the int scalar 2 divides exactly. */
  lemma RealDivAssignExample()
    ensures A.Div(Quat(6.0, 8.0, 1.0, 3.0), 2 as real) == Ok(Quat(3.0, 4.0, 0.5, 1.5))
  {
  }

  /** `q * s` and `s * q` for an int quaternion and an int scalar. */
  lemma IntScaleExample()
    ensures IQ.Scale(IQ.IntQuat(6, 8, 1, 3), 2) == IQ.IntQuat(12, 16, 2, 6)
  {
  }

  /** `q * s` and `s * q` for an int quaternion and a double scalar compute in double. */
  lemma MixedScaleExample()
    ensures C.MixedScale(IQ.IntQuat(7, 5, 1, 3), 1.5) == Quat(10.5, 7.5, 1.5, 4.5)
  {
  }

  /** `/` of an int quaternion by an int scalar. */
  lemma IntDivisionExample()
    ensures IQ.Div(IQ.IntQuat(6, 8, 4, 2), 2) == Ok(IQ.IntQuat(3, 4, 2, 1))
  {
  }

  /** `/` of an int quaternion by the double 0.8 computes in double. */
  lemma MixedDivisionExample()
    ensures C.MixedDiv(IQ.IntQuat(8, 5, 1, 3), 0.8) == Ok(Quat(10.0, 6.25, 1.25, 3.75))
  {
    var d := C.MixedDiv(IQ.IntQuat(8, 5, 1, 3), 0.8);
    assert A.Scale(d.value, 0.8) == Quat(8.0, 5.0, 1.0, 3.0);
  }

  /** `/` by a zero double is the division-by-zero error. */
  lemma DivisionByZeroExample()
    ensures C.MixedDiv(IQ.IntQuat(8, 5, 1, 3), 0.0) == Err(DivisionByZero)
  {
  }

  /** (1, 2, 3, 4) times the identity, in either order, is itself. */
  lemma IntIdentityExample()
    ensures IQ.Mul(IQ.IntQuat(1, 2, 3, 4), IQ.One) == IQ.IntQuat(1, 2, 3, 4)
    ensures IQ.Mul(IQ.One, IQ.IntQuat(1, 2, 3, 4)) == IQ.IntQuat(1, 2, 3, 4)
  {
    IQ.MulIdentity(IQ.IntQuat(1, 2, 3, 4));
  }

  /** (1, 0, 0, 2) times its inverse is the identity, in both orders. */
  lemma InverseMultiplicationExample()
    ensures A.Inversed(Quat(1.0, 0.0, 0.0, 2.0)).Ok?
    ensures A.Mul(Quat(1.0, 0.0, 0.0, 2.0), A.Inversed(Quat(1.0, 0.0, 0.0, 2.0)).value) == One
    ensures A.Mul(A.Inversed(Quat(1.0, 0.0, 0.0, 2.0)).value, Quat(1.0, 0.0, 0.0, 2.0)) == One
  {
    G.InverseIsTwoSided(Quat(1.0, 0.0, 0.0, 2.0));
  }

  /** The int product of (1, 2, 3, 4) and (3, 4, 1, 2) is (4, 28, 8, -6); the other order differs. */
  lemma IntProductExample()
    ensures IQ.Mul(IQ.IntQuat(1, 2, 3, 4), IQ.IntQuat(3, 4, 1, 2)) == IQ.IntQuat(4, 28, 8, -6)
    ensures IQ.Mul(IQ.IntQuat(3, 4, 1, 2), IQ.IntQuat(1, 2, 3, 4)) != IQ.IntQuat(4, 28, 8, -6)
  {
  }

  /** An int quaternion times a double quaternion is computed in double; the other order differs. */
  lemma MixedProductExample()
    ensures C.MixedMul(IQ.IntQuat(1, 2, 3, 4), Quat(3.5, 4.0, 1.5, 2.0)) == Quat(7.0, 29.0, 9.0, -8.0)
    ensures A.Mul(Quat(3.5, 4.0, 1.5, 2.0), C.Promote(IQ.IntQuat(1, 2, 3, 4))) != Quat(7.0, 29.0, 9.0, -8.0)
  {
  }

  /**
   * Truncating the operand is not truncating the result: 1 += -0.5 leaves 1,
   * while truncating the free sum 0.5 would give 0.
   */
  lemma OperandTruncated()
    ensures C.AddAssignReal(IQ.One, Quat(0.0, 0.0, 0.0, -0.5)) == IQ.One
  {
  }

  /** The same sum through the free operator and then the conversion operator. */
  lemma ResultTruncated()
    ensures C.Demote(C.MixedAdd(IQ.One, Quat(0.0, 0.0, 0.0, -0.5))) == IQ.Zero
  {
    assert C.MixedAdd(IQ.One, Quat(0.0, 0.0, 0.0, -0.5)) == Quat(0.0, 0.0, 0.0, 0.5);
  }
}

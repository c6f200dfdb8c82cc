# quaternionlib::Quaternion in Dafny

A model of the header-only C++ class template `quaternionlib::Quaternion<T>`
(`include/Quaternion.hpp`): a value `(x, y, z, w)` with vector part `(x, y, z)`
and scalar part `w`, and its operator surface:

- the constructors (four values, three values with `w = 1`, and an initializer list of three or four values);
- `operator[]`, `Zero()`, `SquaredNorm()`, `Conjugate()`/`Conjugated()` and `Inverse()`/`Inversed()`;
- `+ - *` and scalar `* /`, in their free and compound-assignment forms;
- unary `-`, `==`/`!=` (with the initializer-list overload), and the free functions `Dot` and `Lerp`.

The library is used with two element types, and both are modelled:

- `Quaternion<double>` is the datatype `Quat` over `real`. Doubles are exact reals here.
- `Quaternion<int>` is `IntQuat` over `int`. Its division truncates toward zero, like C++ `int` division, and it is written out explicitly because Dafny's `/` is Euclidean.

List construction, `operator[]` and equality with a list are modelled once, for `Quat`. For `Quaternion<int>` the same code runs componentwise on `int` values, so the model does not repeat them for `IntQuat`.

The `Conversion` module covers how the two types meet:

- A binary free operator with an `int` and a `double` operand converts to the common type `double` and computes there.
- A compound assignment keeps the type of its left operand. It converts the right operand first, so an `int` quaternion `*= 2.5` multiplies by 2.
- The conversion operator truncates each component.

Failures are values of `Result`. The source throws or asserts in three places, and each becomes an error value:

- a division by a zero scalar (`DivisionByZero`). Inside the `noexcept` members `Inverse()` and `Inversed()` that throw ends the program through `std::terminate`; the model reports it as the same error value;
- an initializer list whose size is not 3 or 4 (`InvalidQuaternionSize`);
- an index outside 0..3 (`IndexOutOfRange`).

The default value, and the value `Zero()` resets to, is the all-zero `Quat(0, 0, 0, 0)`, because the member initializers make it so (include/Quaternion.hpp:155). An older revision's test (tests/test.cpp:16) expects `w == 1` for the default value; the model follows include/Quaternion.hpp:155. `Lerp` is the plain affine combination for every `t` (include/Quaternion.hpp:700-709).

Each mutating member function computes the same value as its returning partner. So `Conjugate()` is modelled as `Conjugate` (proved equal to `Conjugated`), `Inverse()` shares `Inversed`, and `a op= b` shares the function of `a op b` when both operands have the same type, except when the scalar of `*=` or `/=` is a reference to one of the receiver's own components. Those two operators take the scalar by reference and read it again for every component, in the order w, x, y, z (include/Quaternion.hpp:571-578, 584-595). So `q /= q.W()` sets w to 1 first and then divides x, y and z by 1. `Arithmetic.ScaleBySelf` and `Arithmetic.DivBySelf` model this aliased case over `double`. The free `*` and `/` are not affected, because they copy the quaternion before updating it (include/Quaternion.hpp:602-603, 629-630).

Modules:

| module | file | contents |
|---|---|---|
| `Errors` | errors.dfy | the error kinds and `Result` |
| `Quaternions` | quaternion.dfy | the datatype, construction, indexing, equality |
| `Arithmetic` | arithmetic.dfy | the operations over `double` |
| `Expansions` | expansions.dfy | componentwise expansions of the Hamilton product (proof steps) |
| `Algebra` | algebra.dfy | ring and field laws over `double` |
| `IntQuaternion` | int_quaternion.dfy | the operations over `int`, with truncating division |
| `Conversion` | conversion.dfy | promotion, truncation, mixed operators, compound assignment across types |
| `SourceExamples` | source_examples.dfy | the values the test suite expects |

## Model

| member | source | states |
|---|---|---|
| Quaternions.VectorPart | include/Quaternion.hpp:357-361 | the vector part is the three imaginary components, and with the scalar part appended gives the components in index order |
| Quaternions.ScalarPart | include/Quaternion.hpp:351-355 | the scalar part is the component at index 3 |
| Quaternions.Make3 | include/Quaternion.hpp:164-168 | the three-argument constructor sets the vector part and a scalar part of 1, the same value as a three-value initializer list |
| Quaternions.FromList | include/Quaternion.hpp:170-206 | list construction and list assignment succeed exactly for 3 or 4 values, fail with InvalidQuaternionSize otherwise, store the values in x, y, z, w order, and fill w with 1 for three values |
| Quaternions.Index | include/Quaternion.hpp:665-676 | indices 0..3 read x, y, z, w; any other index is IndexOutOfRange |
| Quaternions.Store | include/Quaternion.hpp:652-663 | writing through the index reference replaces exactly that component; any other index is IndexOutOfRange |
| Quaternions.StoreThenIndex | include/Quaternion.hpp:652-676 | reading back a stored index gives the stored value, and every other index is unchanged |
| Quaternions.Equal | include/Quaternion.hpp:476-482 | operator== holds exactly when all four components agree |
| Quaternions.NotEqual | include/Quaternion.hpp:504-510 | operator!= holds exactly when the quaternions differ |
| Quaternions.EqualsList | include/Quaternion.hpp:484-502 | comparison with a list holds exactly when the list is the four components in order; a list of any other size is never equal |
| Quaternions.FromComponents | include/Quaternion.hpp:170-186 | constructing from the component list gives back the quaternion, which compares equal to that list |
| Arithmetic.Div | include/Quaternion.hpp:619-633 | scalar division fails with DivisionByZero exactly for a zero divisor; otherwise scaling the quotient back gives the dividend, and the quotient is the product with the reciprocal |
| Arithmetic.UpdateOrder | include/Quaternion.hpp:573-576 | `*=` and `/=` update w first, then x, y and z |
| Arithmetic.DivBySelf | include/Quaternion.hpp:584-595 | `q /= q[c]` fails exactly when that component is 0, as the guard sees the original value |
| Arithmetic.ScaleBySelfX | include/Quaternion.hpp:571-578 | `q *= q[0]`: w and x are multiplied by x, while y and z, updated later, are multiplied by x * x |
| Arithmetic.ScaleBySelfY | include/Quaternion.hpp:571-578 | `q *= q[1]`: w, x and y are multiplied by y, while z is multiplied by y * y |
| Arithmetic.ScaleBySelfZ | include/Quaternion.hpp:571-578 | `q *= q[2]`: every component is multiplied by the original z, because z is updated last |
| Arithmetic.ScaleBySelfW | include/Quaternion.hpp:571-578 | `q *= q.W()`: w becomes w * w, and x, y and z are multiplied by w * w |
| Arithmetic.ScaleBySelfBefore | include/Quaternion.hpp:571-578 | with an aliased scalar, the components updated up to and including the aliased one are multiplied by its original value |
| Arithmetic.ScaleBySelfAfter | include/Quaternion.hpp:571-578 | with an aliased scalar, the components updated after the aliased one are multiplied by the square of its original value |
| Arithmetic.DivBySelfX | include/Quaternion.hpp:584-595 | `q /= q[0]` with x nonzero: w is divided by x, x becomes 1, and y and z are kept |
| Arithmetic.DivBySelfY | include/Quaternion.hpp:584-595 | `q /= q[1]` with y nonzero: w and x are divided by y, y becomes 1, and z is kept |
| Arithmetic.DivBySelfZ | include/Quaternion.hpp:584-595 | `q /= q[2]` with z nonzero: every component is divided by the original z |
| Arithmetic.DivBySelfW | include/Quaternion.hpp:584-595 | `q /= q.W()` with w nonzero: w becomes 1 and x, y and z are kept |
| Arithmetic.DivBySelfOne | include/Quaternion.hpp:584-595 | with an aliased divisor, the aliased component ends as 1 |
| Arithmetic.DivBySelfBefore | include/Quaternion.hpp:584-595 | with an aliased divisor, the components updated before the aliased one are divided by its original value |
| Arithmetic.DivBySelfAfter | include/Quaternion.hpp:584-595 | with an aliased divisor, the components updated after the aliased one keep their values |
| Arithmetic.LastUpdatedUnaliased | include/Quaternion.hpp:571-595 | aliasing z, the last component updated, gives the same result as scaling or dividing by a copy of z |
| Arithmetic.ScaleBySelfAgrees | include/Quaternion.hpp:571-578 | `q *= q[c]` equals scaling by a copy exactly when the second factor changes none of the components updated after `c` |
| Arithmetic.AliasedScaleExample | include/Quaternion.hpp:571-578 | `q *= q.W()` on (1, 1, 1, 2) gives (4, 4, 4, 4), while scaling by 2 gives (2, 2, 2, 4) |
| Arithmetic.AliasedDivExample | include/Quaternion.hpp:584-595 | `q /= q.W()` on (2, 4, 6, 2) gives (2, 4, 6, 1), while dividing by 2 gives (1, 2, 3, 1) |
| Arithmetic.SquaredNorm | include/Quaternion.hpp:378-382 | the squared norm is never negative and is zero exactly for the zero quaternion |
| IntQuaternion.SquaredNorm | include/Quaternion.hpp:378-382 | over `int` too, the squared norm is never negative and is zero exactly for the zero quaternion |
| Arithmetic.Conjugate | include/Quaternion.hpp:409-415 | the in-place conjugation (multiplying x, y, z by -1) lands on the value Conjugated returns |
| Arithmetic.Inversed | include/Quaternion.hpp:423-433 | inversion fails exactly for the zero quaternion; otherwise the result scaled by the squared norm is the conjugate |
| Algebra.HamiltonBasis | include/Quaternion.hpp:560-563 | the product's sign convention: i^2 = j^2 = k^2 = -1, ij = k = -ji, jk = i = -kj, ki = j = -ik |
| Algebra.MulIdentity | include/Quaternion.hpp:545-566 | (0, 0, 0, 1) is a two-sided identity of the Hamilton product |
| Algebra.MulAssociative | include/Quaternion.hpp:545-566 | the Hamilton product is associative |
| Algebra.MulDistributesRight | include/Quaternion.hpp:545-566 | the product distributes over addition in its right factor |
| Algebra.MulDistributesLeft | include/Quaternion.hpp:545-566 | the product distributes over addition in its left factor |
| Algebra.MulScaleLeft | include/Quaternion.hpp:545-566 | a scalar on the left factor moves out of the product |
| Algebra.MulScaleRight | include/Quaternion.hpp:545-566 | a scalar on the right factor moves out of the product |
| Algebra.MulConjugate | include/Quaternion.hpp:417-421 | a quaternion times its conjugate, in either order, is its squared norm on the scalar part and zero elsewhere |
| Algebra.ConjugateLaws | include/Quaternion.hpp:417-421 | conjugating twice gives back the quaternion; conjugation commutes with addition and with unary minus |
| Algebra.ConjugateReversesProducts | include/Quaternion.hpp:417-421 | the conjugate of a product is the product of the conjugates in reverse order |
| Algebra.InverseIsTwoSided | include/Quaternion.hpp:429-433 | for every nonzero quaternion the inverse exists and multiplies to the identity on both sides |
| Algebra.AdditiveGroup | include/Quaternion.hpp:525-543 | addition is commutative and associative with Zero as identity and unary minus as inverse; subtraction adds the negation and undoes addition |
| Algebra.ScaleLaws | include/Quaternion.hpp:646-650 | unary minus is scaling by -1, scaling distributes over addition, and scaling by 1 changes nothing |
| Algebra.ScaleComposes | include/Quaternion.hpp:568-579 | scaling twice is scaling by the product of the scalars |
| Algebra.DotLaws | include/Quaternion.hpp:689-698 | Dot is symmetric, and a quaternion dotted with itself is its squared norm |
| Algebra.DotAsProduct | include/Quaternion.hpp:689-698 | Dot(a, b) is the scalar part of a times the conjugate of b |
| Algebra.LerpLaws | include/Quaternion.hpp:700-709 | Lerp is the unnormalised affine combination (1 - t) a + t b, gives a at t = 0 and b at t = 1, and is constant between equal endpoints |
| Algebra.SquaredNormMultiplicative | include/Quaternion.hpp:378-382 | the squared norm of a product is the product of the squared norms |
| Algebra.UnitInverseIsConjugate | include/Quaternion.hpp:429-433 | the inverse of a unit quaternion is its conjugate |
| Algebra.InverseInvolution | include/Quaternion.hpp:423-433 | inverting a nonzero quaternion twice gives it back |
| IntQuaternion.TruncDiv | include/Quaternion.hpp:589-592 | int division leaves a remainder smaller than the divisor in magnitude that never has the opposite sign of the dividend, that is, it truncates toward zero |
| IntQuaternion.TruncatedQuotientUnique | include/Quaternion.hpp:589-592 | at most one quotient satisfies the truncation condition, so TruncDiv is C++ int division |
| IntQuaternion.TruncDivNegates | include/Quaternion.hpp:589-592 | negating the dividend negates the quotient |
| IntQuaternion.TruncDivNonNegative | include/Quaternion.hpp:589-592 | for a nonnegative dividend and a positive divisor, truncating division is floor division |
| IntQuaternion.TruncDivSmall | include/Quaternion.hpp:589-592 | a dividend smaller than the divisor in magnitude gives 0 |
| IntQuaternion.TruncDivExact | include/Quaternion.hpp:589-592 | an exact multiple divides without remainder |
| IntQuaternion.Div | include/Quaternion.hpp:619-633 | int scalar division fails with DivisionByZero exactly for 0; otherwise every component is the truncated quotient |
| IntQuaternion.DivUndoesScale | include/Quaternion.hpp:581-595 | multiplying by a nonzero int and then dividing by it gives back the quaternion |
| IntQuaternion.Conjugate | include/Quaternion.hpp:409-415 | the in-place int conjugation lands on the value Conjugated returns |
| IntQuaternion.Inversed | include/Quaternion.hpp:429-433 | int inversion fails exactly when the squared norm is zero; otherwise every component is the conjugate's component divided, truncating, by the squared norm |
| IntQuaternion.MulIdentity | include/Quaternion.hpp:545-566 | (0, 0, 0, 1) is a two-sided identity of the int product |
| IntQuaternion.MulConjugate | include/Quaternion.hpp:417-421 | an int quaternion times its conjugate is its squared norm on the scalar part |
| IntQuaternion.UnitInverse | include/Quaternion.hpp:429-433 | an int quaternion of squared norm 1 inverts exactly to its conjugate, which is a true inverse |
| IntQuaternion.InverseCollapses | include/Quaternion.hpp:429-433 | with truncating division every int quaternion of squared norm 2 or more inverts to the zero quaternion |
| IntQuaternion.LerpEndpoints | include/Quaternion.hpp:700-709 | int Lerp gives a at t = 0 and b at t = 1 |
| Conversion.Trunc | include/Quaternion.hpp:449-452 | static_cast to int drops the fraction toward zero: the result lies within 1 of the value on the side of zero |
| Conversion.TruncWhole | include/Quaternion.hpp:449-452 | truncation leaves a value unchanged exactly when it is a whole number |
| Conversion.PromoteDemote | include/Quaternion.hpp:435-442 | converting int to double and back is the identity; double to int and back is the identity exactly on integral quaternions |
| Conversion.PromoteInjective | include/Quaternion.hpp:252-261 | two int quaternions convert to the same double quaternion only if they are equal |
| Conversion.PromoteHomomorphism | include/Quaternion.hpp:525-543 | int addition, subtraction, unary minus, conjugation and scaling agree with the double operations on converted values |
| Conversion.PromoteProducts | include/Quaternion.hpp:689-698 | the int Dot and squared norm agree with the double ones on converted values |
| Conversion.PromoteLerp | include/Quaternion.hpp:700-709 | int Lerp agrees with double Lerp on converted values |
| Conversion.PromoteMul | include/Quaternion.hpp:635-644 | the int Hamilton product agrees with the double product on converted values |
| Conversion.IntMulAssociative | include/Quaternion.hpp:545-566 | the int Hamilton product is associative |
| Conversion.AddAssignReal | include/Quaternion.hpp:444-455 | `+=` of a double quaternion into an int one adds the truncated operand |
| Conversion.SubAssignReal | include/Quaternion.hpp:457-468 | `-=` of a double quaternion from an int one subtracts the truncated operand |
| Conversion.MulAssignReal | include/Quaternion.hpp:545-566 | `*=` of a double quaternion into an int one multiplies by the truncated operand |
| Conversion.ScaleAssignReal | include/Quaternion.hpp:568-579 | `*=` of an int quaternion by a double scalar multiplies by the truncated scalar |
| Conversion.CompoundExactOnIntegral | include/Quaternion.hpp:444-468 | with an integral operand the compound assignments agree with the free operators, which compute in double |
| Conversion.AddAssignNearFree | include/Quaternion.hpp:444-468 | with any operand, `+=` and `-=` stay within 1 of the free operators in every component |
| Conversion.DivisorAsWritten | include/Quaternion.hpp:581-595 | the guard as written rejects only a divisor equal to 0, and any fraction strictly between -1 and 1 then becomes the int divisor 0 |
| Conversion.GuardAdmitsZeroDivisor | include/Quaternion.hpp:587-592 | every nonzero divisor strictly between -1 and 1 passes the guard and truncates to 0 |
| Conversion.HalfIsAdmitted | include/Quaternion.hpp:587-592 | the divisor 0.5 passes the guard and truncates to 0 |
| Conversion.Divisor | include/Quaternion.hpp:587-592 | with the guard applied after conversion, a divisor is accepted exactly when it is at least 1 in magnitude, and the accepted int divisor is never 0 |
| Conversion.DivAssignReal | include/Quaternion.hpp:581-595 | corrected `/=` (see ## Findings): `/=` of an int quaternion by a double fails exactly when the truncated divisor is 0; otherwise every component is the truncated quotient by the truncated divisor |
| Conversion.DivisorCorrectsGuard | include/Quaternion.hpp:587-592 | the corrected guard agrees with the written one wherever it accepts, and they differ exactly on the nonzero fractions strictly between -1 and 1 |
| Conversion.DivAssignIntegral | include/Quaternion.hpp:581-595 | dividing in place by an integral double is int division by that integer |
| Conversion.MixedEqual | include/Quaternion.hpp:476-482 | comparing an int with a double quaternion holds exactly when the converted int quaternion equals the double one, and then the double one is integral and truncates back |
| Conversion.MixedAgreesWithInt | include/Quaternion.hpp:525-543 | the mixed free operators agree with the int operators on integral double operands, and mixed division by a nonzero integer is undone by scaling back |
| SourceExamples.FiveValuesRejected | test/test.cpp:52-58 | a five-value list is rejected with InvalidQuaternionSize |
| SourceExamples.ConjugationExample | test/test.cpp:214-227 | both conjugation forms take (1, 2, 3, 4) to (-1, -2, -3, 4) |
| SourceExamples.InversionExample | test/test.cpp:229-241 | the inverse of (1, 2, 3, 4) is (-1, -2, -3, 4) / 30 |
| SourceExamples.ConversionExample | test/test.cpp:243-254 | converting int (1, 2, 3, 4) to double keeps the components |
| SourceExamples.RealAddAssignExample | test/test.cpp:258-267 | the same-type `+=` vector |
| SourceExamples.MixedAddAssignExample | test/test.cpp:269-278 | int `+=` double truncates the operand: (4, 3, 5, 7) += (5.2, 23.6, 2.8, 5.4) is (9, 26, 7, 12) |
| SourceExamples.RealSubAssignExample | test/test.cpp:283-292 | the same-type `-=` vector |
| SourceExamples.MixedSubAssignExample | test/test.cpp:294-303 | int `-=` double truncates the operand: the result is (2, 2, 1, 6) |
| SourceExamples.IntAdditionExample | test/test.cpp:308-315 | int addition (1, 2, 3, 4) + (2, 5, 3, 1) = (3, 7, 6, 5) |
| SourceExamples.MixedAdditionExample | test/test.cpp:317-324 | int + double computes in double and keeps the fractions |
| SourceExamples.IntSubtractionExample | test/test.cpp:329-336 | int subtraction gives (-1, 2, 0, 3) |
| SourceExamples.MixedSubtractionExample | test/test.cpp:338-345 | int - double computes in double |
| SourceExamples.IntScaleAssignExample | test/test.cpp:350-359 | int `*=` 2 doubles each component |
| SourceExamples.MixedScaleAssignExample | test/test.cpp:361-370 | int `*=` 2.5 multiplies by 2, and the result compares equal to the double (12, 16, 2, 6) |
| SourceExamples.IntDivAssignExample | test/test.cpp:375-384 | int `/=` 2 truncates: (6, 8, 1, 3) becomes (3, 4, 0, 1) |
| SourceExamples.RealDivAssignExample | test/test.cpp:386-395 | double `/=` the int 2 divides exactly: (3, 4, 0.5, 1.5) |
| SourceExamples.IntScaleExample | test/test.cpp:400-408 | int times the int scalar 2 |
| SourceExamples.MixedScaleExample | test/test.cpp:410-418 | int times the double 1.5 computes in double |
| SourceExamples.IntDivisionExample | test/test.cpp:423-430 | int divided by the int 2 |
| SourceExamples.MixedDivisionExample | test/test.cpp:432-439 | int divided by the double 0.8 is (10, 6.25, 1.25, 3.75) |
| SourceExamples.DivisionByZeroExample | test/test.cpp:441-452 | division by a zero double is the DivisionByZero error |
| SourceExamples.IntIdentityExample | test/test.cpp:475-481 | (1, 2, 3, 4) times (0, 0, 0, 1), in either order, is itself |
| SourceExamples.InverseMultiplicationExample | test/test.cpp:483-490 | (1, 0, 0, 2) times its inverse is the identity in both orders |
| SourceExamples.IntProductExample | test/test.cpp:492-500 | (1, 2, 3, 4)(3, 4, 1, 2) = (4, 28, 8, -6), and the reverse order differs |
| SourceExamples.MixedProductExample | test/test.cpp:502-510 | int times double is (7, 29, 9, -8) computed in double, and the reverse order differs |
| SourceExamples.OperandTruncated | include/Quaternion.hpp:444-455 | 1 `+=` -0.5 leaves 1, because the operand truncates to 0 first |
| SourceExamples.ResultTruncated | include/Quaternion.hpp:525-533 | the free sum of 1 and -0.5 is 0.5, which the conversion operator truncates to 0 |

## Left out

- `Norm`, `Normalize`, `Normalized`: these take `std::sqrt`, which has no exact counterpart over `real`.
- `IsNormalized`, `IsApproxEqual`: these compare against machine epsilon, which is floating-point rounding behaviour.
- Floating-point rounding in general: `double` is modelled as exact real arithmetic.
- `int` overflow: `int` components are unbounded integers, so wrap-around and overflow are not modelled.
- Move constructors and move assignments: these copy the components and reset the source to zero. That is ownership mechanics on a mutable object, while the model has immutable values; the converted value they store is `Promote` or `Demote` of the source.
- The `X()`/`Y()`/`Z()`/`W()` accessors: these are the datatype's fields.
- `operator<<` streaming: this is I/O.
- Type parameters other than `double` and `int`, and the concepts constraining `T`: only the two instantiations the tests use are modelled.
- `/=` under `NDEBUG`: with assertions compiled out the guard vanishes and a zero double divisor gives an infinity or NaN, and a zero `int` divisor is a division by zero. The model keeps the guard as an error value.
- Arithmetic.Inversed, IntQuaternion.Inversed: `Inverse()` and `Inversed()` are `noexcept` (include/Quaternion.hpp:119-120, 424-432). The `std::domain_error` that the zero divisor raises in the free `operator/` (include/Quaternion.hpp:624-627) therefore calls `std::terminate`. The model reports this as `Err(DivisionByZero)` and does not model the termination.
- `src/Quaternion.cpp`, `include/quaternionlib/Quaternion.hpp`, `tests/test.cpp` and `tests/main.cpp` belong to an older floating-point-only revision and a timing program. They are not part of this model.
- The int instance of the basis identities (`test/test.cpp:462-473`): it is stated over `double` by `Algebra.HamiltonBasis`. It carries over to `int` through `Conversion.PromoteMul` and `Conversion.PromoteInjective`, but those ground `int` products are not restated as a lemma of their own.
- Arithmetic.Add, Arithmetic.Sub, Arithmetic.Neg, Arithmetic.Scale, Arithmetic.Mul, Arithmetic.Conjugated, Arithmetic.Dot, Arithmetic.Lerp, Arithmetic.ScaleBySelf: these carry no contract of their own. What they compute is stated by the laws in `Algebra` and by the examples; for `Arithmetic.ScaleBySelf` it is stated by the `Arithmetic.ScaleBySelf*` lemmas.
- Arithmetic.Scale, Arithmetic.Div, IntQuaternion.Scale, IntQuaternion.Div: these model `*=` and `/=` with a scalar that is a separate value. When the scalar is a reference to one of the receiver's own components, the later updates read the already updated component (include/Quaternion.hpp:573-576, 589-592). Over `double` that case is `Arithmetic.ScaleBySelf` and `Arithmetic.DivBySelf`. Over `int` it is not modelled: it follows the same update order, with truncating division.
- IntQuaternion.Add, IntQuaternion.Sub, IntQuaternion.Neg, IntQuaternion.Scale, IntQuaternion.Mul, IntQuaternion.Conjugated, IntQuaternion.Dot, IntQuaternion.Lerp: these carry no contract of their own. They are tied to the `double` operations by `Conversion.PromoteHomomorphism`, `PromoteMul`, `PromoteProducts` and `PromoteLerp`; `IntQuaternion.Conjugated` is also stated by `IntQuaternion.Conjugate` and `IntQuaternion.MulConjugate`.
- Conversion.Promote, Conversion.Demote: these carry no contract of their own. They are stated by `Conversion.PromoteDemote`, `Conversion.PromoteInjective`, the `Promote*` lemmas and `Conversion.Trunc`.
- Conversion.MixedAdd, Conversion.MixedSub, Conversion.MixedMul, Conversion.MixedScale, Conversion.MixedDiv: these carry no contract of their own. They are stated by `Conversion.MixedAgreesWithInt` and the examples.

## Findings

| source | as written | input that shows it | evidently intended | confidence | as-written member | corrected member |
|---|---|---|---|---|---|---|
| include/Quaternion.hpp:581-595 | `operator/=` asserts that the divisor is nonzero before converting it with `static_cast<T>`, so for `Quaternion<int>` a double divisor strictly between -1 and 1 passes the assertion and becomes the int divisor 0 | an `int` quaternion `/= 0.5` | reject every divisor that converts to 0 | not executed | Conversion.DivisorAsWritten | Conversion.Divisor |

The as-written guard is `Conversion.DivisorAsWritten`. `Conversion.GuardAdmitsZeroDivisor` and `Conversion.HalfIsAdmitted` exhibit the discrepancy: a nonzero fraction is let through and the divisor used is 0.

The corrected guard is `Conversion.Divisor`, which checks the converted value. `Conversion.DivAssignReal` uses it and never divides by 0. `Conversion.DivisorCorrectsGuard` proves that the two guards differ exactly on the nonzero fractions strictly between -1 and 1.

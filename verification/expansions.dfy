/**
 * The Hamilton product laws of Algebra, one component at a time. Each
 * composite product is unfolded through MulParts and ScaleParts, and the
 * resulting polynomials are related by identities over plain components, so
 * that every proof obligation stays small.
 */
module Expansions {
  import opened Quaternions
  import opened Arithmetic

  /** The components of a Hamilton product. */
  lemma MulParts(p: Quat, q: Quat)
    ensures Mul(p, q).x == p.w * q.x + p.x * q.w + p.y * q.z - p.z * q.y
    ensures Mul(p, q).y == p.w * q.y - p.x * q.z + p.y * q.w + p.z * q.x
    ensures Mul(p, q).z == p.w * q.z + p.x * q.y - p.y * q.x + p.z * q.w
    ensures Mul(p, q).w == p.w * q.w - p.x * q.x - p.y * q.y - p.z * q.z
  {
  }

  /** The components of a scaled quaternion. */
  lemma ScaleParts(p: Quat, s: real)
    ensures Scale(p, s).x == p.x * s && Scale(p, s).y == p.y * s
    ensures Scale(p, s).z == p.z * s && Scale(p, s).w == p.w * s
  {
  }

  /** u c, where u = a b, as a polynomial in a, b and c. */
  lemma GroupedLeftX(u: Quat, a: Quat, b: Quat, c: Quat)
    requires u.x == a.w * b.x + a.x * b.w + a.y * b.z - a.z * b.y
    requires u.y == a.w * b.y - a.x * b.z + a.y * b.w + a.z * b.x
    requires u.z == a.w * b.z + a.x * b.y - a.y * b.x + a.z * b.w
    requires u.w == a.w * b.w - a.x * b.x - a.y * b.y - a.z * b.z
    ensures u.w * c.x + u.x * c.w + u.y * c.z - u.z * c.y
         == (a.w * b.w - a.x * b.x - a.y * b.y - a.z * b.z) * c.x
            + (a.w * b.x + a.x * b.w + a.y * b.z - a.z * b.y) * c.w
            + (a.w * b.y - a.x * b.z + a.y * b.w + a.z * b.x) * c.z
            - (a.w * b.z + a.x * b.y - a.y * b.x + a.z * b.w) * c.y
  {
  }

  lemma GroupedLeftY(u: Quat, a: Quat, b: Quat, c: Quat)
    requires u.x == a.w * b.x + a.x * b.w + a.y * b.z - a.z * b.y
    requires u.y == a.w * b.y - a.x * b.z + a.y * b.w + a.z * b.x
    requires u.z == a.w * b.z + a.x * b.y - a.y * b.x + a.z * b.w
    requires u.w == a.w * b.w - a.x * b.x - a.y * b.y - a.z * b.z
    ensures u.w * c.y - u.x * c.z + u.y * c.w + u.z * c.x
         == (a.w * b.w - a.x * b.x - a.y * b.y - a.z * b.z) * c.y
            - (a.w * b.x + a.x * b.w + a.y * b.z - a.z * b.y) * c.z
            + (a.w * b.y - a.x * b.z + a.y * b.w + a.z * b.x) * c.w
            + (a.w * b.z + a.x * b.y - a.y * b.x + a.z * b.w) * c.x
  {
  }

  lemma GroupedLeftZ(u: Quat, a: Quat, b: Quat, c: Quat)
    requires u.x == a.w * b.x + a.x * b.w + a.y * b.z - a.z * b.y
    requires u.y == a.w * b.y - a.x * b.z + a.y * b.w + a.z * b.x
    requires u.z == a.w * b.z + a.x * b.y - a.y * b.x + a.z * b.w
    requires u.w == a.w * b.w - a.x * b.x - a.y * b.y - a.z * b.z
    ensures u.w * c.z + u.x * c.y - u.y * c.x + u.z * c.w
         == (a.w * b.w - a.x * b.x - a.y * b.y - a.z * b.z) * c.z
            + (a.w * b.x + a.x * b.w + a.y * b.z - a.z * b.y) * c.y
            - (a.w * b.y - a.x * b.z + a.y * b.w + a.z * b.x) * c.x
            + (a.w * b.z + a.x * b.y - a.y * b.x + a.z * b.w) * c.w
  {
  }

  lemma GroupedLeftW(u: Quat, a: Quat, b: Quat, c: Quat)
    requires u.x == a.w * b.x + a.x * b.w + a.y * b.z - a.z * b.y
    requires u.y == a.w * b.y - a.x * b.z + a.y * b.w + a.z * b.x
    requires u.z == a.w * b.z + a.x * b.y - a.y * b.x + a.z * b.w
    requires u.w == a.w * b.w - a.x * b.x - a.y * b.y - a.z * b.z
    ensures u.w * c.w - u.x * c.x - u.y * c.y - u.z * c.z
         == (a.w * b.w - a.x * b.x - a.y * b.y - a.z * b.z) * c.w
            - (a.w * b.x + a.x * b.w + a.y * b.z - a.z * b.y) * c.x
            - (a.w * b.y - a.x * b.z + a.y * b.w + a.z * b.x) * c.y
            - (a.w * b.z + a.x * b.y - a.y * b.x + a.z * b.w) * c.z
  {
  }

  /** a v, where v = b c, as a polynomial in a, b and c. */
  lemma GroupedRightX(v: Quat, a: Quat, b: Quat, c: Quat)
    requires v.x == b.w * c.x + b.x * c.w + b.y * c.z - b.z * c.y
    requires v.y == b.w * c.y - b.x * c.z + b.y * c.w + b.z * c.x
    requires v.z == b.w * c.z + b.x * c.y - b.y * c.x + b.z * c.w
    requires v.w == b.w * c.w - b.x * c.x - b.y * c.y - b.z * c.z
    ensures a.w * v.x + a.x * v.w + a.y * v.z - a.z * v.y
         == a.w * (b.w * c.x + b.x * c.w + b.y * c.z - b.z * c.y)
            + a.x * (b.w * c.w - b.x * c.x - b.y * c.y - b.z * c.z)
            + a.y * (b.w * c.z + b.x * c.y - b.y * c.x + b.z * c.w)
            - a.z * (b.w * c.y - b.x * c.z + b.y * c.w + b.z * c.x)
  {
  }

  lemma GroupedRightY(v: Quat, a: Quat, b: Quat, c: Quat)
    requires v.x == b.w * c.x + b.x * c.w + b.y * c.z - b.z * c.y
    requires v.y == b.w * c.y - b.x * c.z + b.y * c.w + b.z * c.x
    requires v.z == b.w * c.z + b.x * c.y - b.y * c.x + b.z * c.w
    requires v.w == b.w * c.w - b.x * c.x - b.y * c.y - b.z * c.z
    ensures a.w * v.y - a.x * v.z + a.y * v.w + a.z * v.x
         == a.w * (b.w * c.y - b.x * c.z + b.y * c.w + b.z * c.x)
            - a.x * (b.w * c.z + b.x * c.y - b.y * c.x + b.z * c.w)
            + a.y * (b.w * c.w - b.x * c.x - b.y * c.y - b.z * c.z)
            + a.z * (b.w * c.x + b.x * c.w + b.y * c.z - b.z * c.y)
  {
  }

  lemma GroupedRightZ(v: Quat, a: Quat, b: Quat, c: Quat)
    requires v.x == b.w * c.x + b.x * c.w + b.y * c.z - b.z * c.y
    requires v.y == b.w * c.y - b.x * c.z + b.y * c.w + b.z * c.x
    requires v.z == b.w * c.z + b.x * c.y - b.y * c.x + b.z * c.w
    requires v.w == b.w * c.w - b.x * c.x - b.y * c.y - b.z * c.z
    ensures a.w * v.z + a.x * v.y - a.y * v.x + a.z * v.w
         == a.w * (b.w * c.z + b.x * c.y - b.y * c.x + b.z * c.w)
            + a.x * (b.w * c.y - b.x * c.z + b.y * c.w + b.z * c.x)
            - a.y * (b.w * c.x + b.x * c.w + b.y * c.z - b.z * c.y)
            + a.z * (b.w * c.w - b.x * c.x - b.y * c.y - b.z * c.z)
  {
  }

  lemma GroupedRightW(v: Quat, a: Quat, b: Quat, c: Quat)
    requires v.x == b.w * c.x + b.x * c.w + b.y * c.z - b.z * c.y
    requires v.y == b.w * c.y - b.x * c.z + b.y * c.w + b.z * c.x
    requires v.z == b.w * c.z + b.x * c.y - b.y * c.x + b.z * c.w
    requires v.w == b.w * c.w - b.x * c.x - b.y * c.y - b.z * c.z
    ensures a.w * v.w - a.x * v.x - a.y * v.y - a.z * v.z
         == a.w * (b.w * c.w - b.x * c.x - b.y * c.y - b.z * c.z)
            - a.x * (b.w * c.x + b.x * c.w + b.y * c.z - b.z * c.y)
            - a.y * (b.w * c.y - b.x * c.z + b.y * c.w + b.z * c.x)
            - a.z * (b.w * c.z + b.x * c.y - b.y * c.x + b.z * c.w)
  {
  }

  /** Both groupings of the triple product are the same polynomial. */
  lemma RegroupedX(a: Quat, b: Quat, c: Quat)
    ensures (a.w * b.w - a.x * b.x - a.y * b.y - a.z * b.z) * c.x
       + (a.w * b.x + a.x * b.w + a.y * b.z - a.z * b.y) * c.w
       + (a.w * b.y - a.x * b.z + a.y * b.w + a.z * b.x) * c.z
       - (a.w * b.z + a.x * b.y - a.y * b.x + a.z * b.w) * c.y
         == a.w * (b.w * c.x + b.x * c.w + b.y * c.z - b.z * c.y)
            + a.x * (b.w * c.w - b.x * c.x - b.y * c.y - b.z * c.z)
            + a.y * (b.w * c.z + b.x * c.y - b.y * c.x + b.z * c.w)
            - a.z * (b.w * c.y - b.x * c.z + b.y * c.w + b.z * c.x)
  {
  }

  lemma RegroupedY(a: Quat, b: Quat, c: Quat)
    ensures (a.w * b.w - a.x * b.x - a.y * b.y - a.z * b.z) * c.y
       - (a.w * b.x + a.x * b.w + a.y * b.z - a.z * b.y) * c.z
       + (a.w * b.y - a.x * b.z + a.y * b.w + a.z * b.x) * c.w
       + (a.w * b.z + a.x * b.y - a.y * b.x + a.z * b.w) * c.x
         == a.w * (b.w * c.y - b.x * c.z + b.y * c.w + b.z * c.x)
            - a.x * (b.w * c.z + b.x * c.y - b.y * c.x + b.z * c.w)
            + a.y * (b.w * c.w - b.x * c.x - b.y * c.y - b.z * c.z)
            + a.z * (b.w * c.x + b.x * c.w + b.y * c.z - b.z * c.y)
  {
  }

  lemma RegroupedZ(a: Quat, b: Quat, c: Quat)
    ensures (a.w * b.w - a.x * b.x - a.y * b.y - a.z * b.z) * c.z
       + (a.w * b.x + a.x * b.w + a.y * b.z - a.z * b.y) * c.y
       - (a.w * b.y - a.x * b.z + a.y * b.w + a.z * b.x) * c.x
       + (a.w * b.z + a.x * b.y - a.y * b.x + a.z * b.w) * c.w
         == a.w * (b.w * c.z + b.x * c.y - b.y * c.x + b.z * c.w)
            + a.x * (b.w * c.y - b.x * c.z + b.y * c.w + b.z * c.x)
            - a.y * (b.w * c.x + b.x * c.w + b.y * c.z - b.z * c.y)
            + a.z * (b.w * c.w - b.x * c.x - b.y * c.y - b.z * c.z)
  {
  }

  lemma RegroupedW(a: Quat, b: Quat, c: Quat)
    ensures (a.w * b.w - a.x * b.x - a.y * b.y - a.z * b.z) * c.w
       - (a.w * b.x + a.x * b.w + a.y * b.z - a.z * b.y) * c.x
       - (a.w * b.y - a.x * b.z + a.y * b.w + a.z * b.x) * c.y
       - (a.w * b.z + a.x * b.y - a.y * b.x + a.z * b.w) * c.z
         == a.w * (b.w * c.w - b.x * c.x - b.y * c.y - b.z * c.z)
            - a.x * (b.w * c.x + b.x * c.w + b.y * c.z - b.z * c.y)
            - a.y * (b.w * c.y - b.x * c.z + b.y * c.w + b.z * c.x)
            - a.z * (b.w * c.z + b.x * c.y - b.y * c.x + b.z * c.w)
  {
  }

  /** Associativity of the Hamilton product, one component at a time. */
  lemma AssociativeX(a: Quat, b: Quat, c: Quat)
    ensures Mul(Mul(a, b), c).x == Mul(a, Mul(b, c)).x
  {
    MulParts(a, b);
    MulParts(b, c);
    MulParts(Mul(a, b), c);
    MulParts(a, Mul(b, c));
    GroupedLeftX(Mul(a, b), a, b, c);
    GroupedRightX(Mul(b, c), a, b, c);
    RegroupedX(a, b, c);
  }

  lemma AssociativeY(a: Quat, b: Quat, c: Quat)
    ensures Mul(Mul(a, b), c).y == Mul(a, Mul(b, c)).y
  {
    MulParts(a, b);
    MulParts(b, c);
    MulParts(Mul(a, b), c);
    MulParts(a, Mul(b, c));
    GroupedLeftY(Mul(a, b), a, b, c);
    GroupedRightY(Mul(b, c), a, b, c);
    RegroupedY(a, b, c);
  }

  lemma AssociativeZ(a: Quat, b: Quat, c: Quat)
    ensures Mul(Mul(a, b), c).z == Mul(a, Mul(b, c)).z
  {
    MulParts(a, b);
    MulParts(b, c);
    MulParts(Mul(a, b), c);
    MulParts(a, Mul(b, c));
    GroupedLeftZ(Mul(a, b), a, b, c);
    GroupedRightZ(Mul(b, c), a, b, c);
    RegroupedZ(a, b, c);
  }

  lemma AssociativeW(a: Quat, b: Quat, c: Quat)
    ensures Mul(Mul(a, b), c).w == Mul(a, Mul(b, c)).w
  {
    MulParts(a, b);
    MulParts(b, c);
    MulParts(Mul(a, b), c);
    MulParts(a, Mul(b, c));
    GroupedLeftW(Mul(a, b), a, b, c);
    GroupedRightW(Mul(b, c), a, b, c);
    RegroupedW(a, b, c);
  }

  /** A scaled product component, with the scalar moved onto either factor. */
  lemma ScaledFactorsX(u: Quat, a: Quat, b: Quat, s: real)
    requires u.x == a.w * b.x + a.x * b.w + a.y * b.z - a.z * b.y
    ensures u.x * s == (a.w * s) * b.x + (a.x * s) * b.w + (a.y * s) * b.z - (a.z * s) * b.y
    ensures u.x * s == a.w * (b.x * s) + a.x * (b.w * s) + a.y * (b.z * s) - a.z * (b.y * s)
  {
  }

  lemma ScaledFactorsY(u: Quat, a: Quat, b: Quat, s: real)
    requires u.y == a.w * b.y - a.x * b.z + a.y * b.w + a.z * b.x
    ensures u.y * s == (a.w * s) * b.y - (a.x * s) * b.z + (a.y * s) * b.w + (a.z * s) * b.x
    ensures u.y * s == a.w * (b.y * s) - a.x * (b.z * s) + a.y * (b.w * s) + a.z * (b.x * s)
  {
  }

  lemma ScaledFactorsZ(u: Quat, a: Quat, b: Quat, s: real)
    requires u.z == a.w * b.z + a.x * b.y - a.y * b.x + a.z * b.w
    ensures u.z * s == (a.w * s) * b.z + (a.x * s) * b.y - (a.y * s) * b.x + (a.z * s) * b.w
    ensures u.z * s == a.w * (b.z * s) + a.x * (b.y * s) - a.y * (b.x * s) + a.z * (b.w * s)
  {
  }

  lemma ScaledFactorsW(u: Quat, a: Quat, b: Quat, s: real)
    requires u.w == a.w * b.w - a.x * b.x - a.y * b.y - a.z * b.z
    ensures u.w * s == (a.w * s) * b.w - (a.x * s) * b.x - (a.y * s) * b.y - (a.z * s) * b.z
    ensures u.w * s == a.w * (b.w * s) - a.x * (b.x * s) - a.y * (b.y * s) - a.z * (b.z * s)
  {
  }

  /** A scalar on the left factor, one component at a time. */
  lemma ScaledLeftX(a: Quat, b: Quat, s: real)
    ensures Mul(Scale(a, s), b).x == Mul(a, b).x * s
  {
    MulParts(Scale(a, s), b);
    ScaleParts(a, s);
    MulParts(a, b);
    ScaledFactorsX(Mul(a, b), a, b, s);
  }

  lemma ScaledLeftY(a: Quat, b: Quat, s: real)
    ensures Mul(Scale(a, s), b).y == Mul(a, b).y * s
  {
    MulParts(Scale(a, s), b);
    ScaleParts(a, s);
    MulParts(a, b);
    ScaledFactorsY(Mul(a, b), a, b, s);
  }

  lemma ScaledLeftZ(a: Quat, b: Quat, s: real)
    ensures Mul(Scale(a, s), b).z == Mul(a, b).z * s
  {
    MulParts(Scale(a, s), b);
    ScaleParts(a, s);
    MulParts(a, b);
    ScaledFactorsZ(Mul(a, b), a, b, s);
  }

  lemma ScaledLeftW(a: Quat, b: Quat, s: real)
    ensures Mul(Scale(a, s), b).w == Mul(a, b).w * s
  {
    MulParts(Scale(a, s), b);
    ScaleParts(a, s);
    MulParts(a, b);
    ScaledFactorsW(Mul(a, b), a, b, s);
  }

  /** A scalar on the right factor, one component at a time. */
  lemma ScaledRightX(a: Quat, b: Quat, s: real)
    ensures Mul(a, Scale(b, s)).x == Mul(a, b).x * s
  {
    MulParts(a, Scale(b, s));
    ScaleParts(b, s);
    MulParts(a, b);
    ScaledFactorsX(Mul(a, b), a, b, s);
  }

  lemma ScaledRightY(a: Quat, b: Quat, s: real)
    ensures Mul(a, Scale(b, s)).y == Mul(a, b).y * s
  {
    MulParts(a, Scale(b, s));
    ScaleParts(b, s);
    MulParts(a, b);
    ScaledFactorsY(Mul(a, b), a, b, s);
  }

  lemma ScaledRightZ(a: Quat, b: Quat, s: real)
    ensures Mul(a, Scale(b, s)).z == Mul(a, b).z * s
  {
    MulParts(a, Scale(b, s));
    ScaleParts(b, s);
    MulParts(a, b);
    ScaledFactorsZ(Mul(a, b), a, b, s);
  }

  lemma ScaledRightW(a: Quat, b: Quat, s: real)
    ensures Mul(a, Scale(b, s)).w == Mul(a, b).w * s
  {
    MulParts(a, Scale(b, s));
    ScaleParts(b, s);
    MulParts(a, b);
    ScaledFactorsW(Mul(a, b), a, b, s);
  }

  /** a d, where d = b + c, split into a b + a c. */
  lemma SplitRightX(d: Quat, a: Quat, b: Quat, c: Quat)
    requires d.x == b.x + c.x
    requires d.y == b.y + c.y
    requires d.z == b.z + c.z
    requires d.w == b.w + c.w
    ensures a.w * d.x + a.x * d.w + a.y * d.z - a.z * d.y
         == a.w * b.x + a.x * b.w + a.y * b.z - a.z * b.y
            + (a.w * c.x + a.x * c.w + a.y * c.z - a.z * c.y)
  {
  }

  lemma SplitRightY(d: Quat, a: Quat, b: Quat, c: Quat)
    requires d.x == b.x + c.x
    requires d.y == b.y + c.y
    requires d.z == b.z + c.z
    requires d.w == b.w + c.w
    ensures a.w * d.y - a.x * d.z + a.y * d.w + a.z * d.x
         == a.w * b.y - a.x * b.z + a.y * b.w + a.z * b.x
            + (a.w * c.y - a.x * c.z + a.y * c.w + a.z * c.x)
  {
  }

  lemma SplitRightZ(d: Quat, a: Quat, b: Quat, c: Quat)
    requires d.x == b.x + c.x
    requires d.y == b.y + c.y
    requires d.z == b.z + c.z
    requires d.w == b.w + c.w
    ensures a.w * d.z + a.x * d.y - a.y * d.x + a.z * d.w
         == a.w * b.z + a.x * b.y - a.y * b.x + a.z * b.w
            + (a.w * c.z + a.x * c.y - a.y * c.x + a.z * c.w)
  {
  }

  lemma SplitRightW(d: Quat, a: Quat, b: Quat, c: Quat)
    requires d.x == b.x + c.x
    requires d.y == b.y + c.y
    requires d.z == b.z + c.z
    requires d.w == b.w + c.w
    ensures a.w * d.w - a.x * d.x - a.y * d.y - a.z * d.z
         == a.w * b.w - a.x * b.x - a.y * b.y - a.z * b.z
            + (a.w * c.w - a.x * c.x - a.y * c.y - a.z * c.z)
  {
  }

  /** d c, where d = a + b, split into a c + b c. */
  lemma SplitLeftX(d: Quat, a: Quat, b: Quat, c: Quat)
    requires d.x == a.x + b.x
    requires d.y == a.y + b.y
    requires d.z == a.z + b.z
    requires d.w == a.w + b.w
    ensures d.w * c.x + d.x * c.w + d.y * c.z - d.z * c.y
         == a.w * c.x + a.x * c.w + a.y * c.z - a.z * c.y
            + (b.w * c.x + b.x * c.w + b.y * c.z - b.z * c.y)
  {
  }

  lemma SplitLeftY(d: Quat, a: Quat, b: Quat, c: Quat)
    requires d.x == a.x + b.x
    requires d.y == a.y + b.y
    requires d.z == a.z + b.z
    requires d.w == a.w + b.w
    ensures d.w * c.y - d.x * c.z + d.y * c.w + d.z * c.x
         == a.w * c.y - a.x * c.z + a.y * c.w + a.z * c.x
            + (b.w * c.y - b.x * c.z + b.y * c.w + b.z * c.x)
  {
  }

  lemma SplitLeftZ(d: Quat, a: Quat, b: Quat, c: Quat)
    requires d.x == a.x + b.x
    requires d.y == a.y + b.y
    requires d.z == a.z + b.z
    requires d.w == a.w + b.w
    ensures d.w * c.z + d.x * c.y - d.y * c.x + d.z * c.w
         == a.w * c.z + a.x * c.y - a.y * c.x + a.z * c.w
            + (b.w * c.z + b.x * c.y - b.y * c.x + b.z * c.w)
  {
  }

  lemma SplitLeftW(d: Quat, a: Quat, b: Quat, c: Quat)
    requires d.x == a.x + b.x
    requires d.y == a.y + b.y
    requires d.z == a.z + b.z
    requires d.w == a.w + b.w
    ensures d.w * c.w - d.x * c.x - d.y * c.y - d.z * c.z
         == a.w * c.w - a.x * c.x - a.y * c.y - a.z * c.z
            + (b.w * c.w - b.x * c.x - b.y * c.y - b.z * c.z)
  {
  }

  /** A sum in the right factor, one component at a time. */
  lemma SumRightX(a: Quat, b: Quat, c: Quat)
    ensures Mul(a, Add(b, c)).x == Mul(a, b).x + Mul(a, c).x
  {
    MulParts(a, Add(b, c));
    MulParts(a, b);
    MulParts(a, c);
    SplitRightX(Add(b, c), a, b, c);
  }

  lemma SumRightY(a: Quat, b: Quat, c: Quat)
    ensures Mul(a, Add(b, c)).y == Mul(a, b).y + Mul(a, c).y
  {
    MulParts(a, Add(b, c));
    MulParts(a, b);
    MulParts(a, c);
    SplitRightY(Add(b, c), a, b, c);
  }

  lemma SumRightZ(a: Quat, b: Quat, c: Quat)
    ensures Mul(a, Add(b, c)).z == Mul(a, b).z + Mul(a, c).z
  {
    MulParts(a, Add(b, c));
    MulParts(a, b);
    MulParts(a, c);
    SplitRightZ(Add(b, c), a, b, c);
  }

  lemma SumRightW(a: Quat, b: Quat, c: Quat)
    ensures Mul(a, Add(b, c)).w == Mul(a, b).w + Mul(a, c).w
  {
    MulParts(a, Add(b, c));
    MulParts(a, b);
    MulParts(a, c);
    SplitRightW(Add(b, c), a, b, c);
  }

  /** A sum in the left factor, one component at a time. */
  lemma SumLeftX(a: Quat, b: Quat, c: Quat)
    ensures Mul(Add(a, b), c).x == Mul(a, c).x + Mul(b, c).x
  {
    MulParts(Add(a, b), c);
    MulParts(a, c);
    MulParts(b, c);
    SplitLeftX(Add(a, b), a, b, c);
  }

  lemma SumLeftY(a: Quat, b: Quat, c: Quat)
    ensures Mul(Add(a, b), c).y == Mul(a, c).y + Mul(b, c).y
  {
    MulParts(Add(a, b), c);
    MulParts(a, c);
    MulParts(b, c);
    SplitLeftY(Add(a, b), a, b, c);
  }

  lemma SumLeftZ(a: Quat, b: Quat, c: Quat)
    ensures Mul(Add(a, b), c).z == Mul(a, c).z + Mul(b, c).z
  {
    MulParts(Add(a, b), c);
    MulParts(a, c);
    MulParts(b, c);
    SplitLeftZ(Add(a, b), a, b, c);
  }

  lemma SumLeftW(a: Quat, b: Quat, c: Quat)
    ensures Mul(Add(a, b), c).w == Mul(a, c).w + Mul(b, c).w
  {
    MulParts(Add(a, b), c);
    MulParts(a, c);
    MulParts(b, c);
    SplitLeftW(Add(a, b), a, b, c);
  }

  /** p q, where p = conj(b) and q = conj(a), is a b with the vector part negated. */
  lemma ConjugatesReversedX(p: Quat, q: Quat, a: Quat, b: Quat)
    requires p.x == -b.x && p.y == -b.y && p.z == -b.z && p.w == b.w
    requires q.x == -a.x && q.y == -a.y && q.z == -a.z && q.w == a.w
    ensures p.w * q.x + p.x * q.w + p.y * q.z - p.z * q.y == -(a.w * b.x + a.x * b.w + a.y * b.z - a.z * b.y)
  {
  }

  lemma ConjugatesReversedY(p: Quat, q: Quat, a: Quat, b: Quat)
    requires p.x == -b.x && p.y == -b.y && p.z == -b.z && p.w == b.w
    requires q.x == -a.x && q.y == -a.y && q.z == -a.z && q.w == a.w
    ensures p.w * q.y - p.x * q.z + p.y * q.w + p.z * q.x == -(a.w * b.y - a.x * b.z + a.y * b.w + a.z * b.x)
  {
  }

  lemma ConjugatesReversedZ(p: Quat, q: Quat, a: Quat, b: Quat)
    requires p.x == -b.x && p.y == -b.y && p.z == -b.z && p.w == b.w
    requires q.x == -a.x && q.y == -a.y && q.z == -a.z && q.w == a.w
    ensures p.w * q.z + p.x * q.y - p.y * q.x + p.z * q.w == -(a.w * b.z + a.x * b.y - a.y * b.x + a.z * b.w)
  {
  }

  lemma ConjugatesReversedW(p: Quat, q: Quat, a: Quat, b: Quat)
    requires p.x == -b.x && p.y == -b.y && p.z == -b.z && p.w == b.w
    requires q.x == -a.x && q.y == -a.y && q.z == -a.z && q.w == a.w
    ensures p.w * q.w - p.x * q.x - p.y * q.y - p.z * q.z == (a.w * b.w - a.x * b.x - a.y * b.y - a.z * b.z)
  {
  }

  /** The product of the conjugates in reverse order, one component at a time. */
  lemma ProductOfConjugatesX(a: Quat, b: Quat)
    ensures Mul(Conjugated(b), Conjugated(a)).x == -Mul(a, b).x
  {
    MulParts(Conjugated(b), Conjugated(a));
    MulParts(a, b);
    ConjugatesReversedX(Conjugated(b), Conjugated(a), a, b);
  }

  lemma ProductOfConjugatesY(a: Quat, b: Quat)
    ensures Mul(Conjugated(b), Conjugated(a)).y == -Mul(a, b).y
  {
    MulParts(Conjugated(b), Conjugated(a));
    MulParts(a, b);
    ConjugatesReversedY(Conjugated(b), Conjugated(a), a, b);
  }

  lemma ProductOfConjugatesZ(a: Quat, b: Quat)
    ensures Mul(Conjugated(b), Conjugated(a)).z == -Mul(a, b).z
  {
    MulParts(Conjugated(b), Conjugated(a));
    MulParts(a, b);
    ConjugatesReversedZ(Conjugated(b), Conjugated(a), a, b);
  }

  lemma ProductOfConjugatesW(a: Quat, b: Quat)
    ensures Mul(Conjugated(b), Conjugated(a)).w == Mul(a, b).w
  {
    MulParts(Conjugated(b), Conjugated(a));
    MulParts(a, b);
    ConjugatesReversedW(Conjugated(b), Conjugated(a), a, b);
  }

  /** A conjugated right factor, scalar part only. */
  lemma ConjugatedRightW(a: Quat, b: Quat)
    ensures Mul(a, Conjugated(b)).w == a.w * b.w + a.x * b.x + a.y * b.y + a.z * b.z
  {
    MulParts(a, Conjugated(b));
  }
}

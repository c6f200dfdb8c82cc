/**
 * The quaternion value type Quaternion<double>, with double modelled as exact
 * real arithmetic, and the operations that only store, read and compare components.
 */
module Quaternions {
  import opened Errors

  /** A quaternion x*i + y*j + z*k + w with vector part (x, y, z) and scalar part w. */
  datatype Quat = Quat(x: real, y: real, z: real, w: real)

  /** The default-constructed value, and the value `Zero()` resets to: every component T{}. */
  const Zero: Quat := Quat(0.0, 0.0, 0.0, 0.0)

  /** The multiplicative identity (0, 0, 0, 1). */
  const One: Quat := Quat(0.0, 0.0, 0.0, 1.0)

  /** The components in index order: index 0, 1, 2, 3 is x, y, z, w. */
  function Components(q: Quat): seq<real>
  {
    [q.x, q.y, q.z, q.w]
  }

  /** The imaginary part (x, y, z). */
  function VectorPart(q: Quat): (v: seq<real>)
    ensures |v| == 3
    ensures v + [ScalarPart(q)] == Components(q)
  {
    [q.x, q.y, q.z]
  }

  /** The real part w. */
  function ScalarPart(q: Quat): (s: real)
    ensures s == Components(q)[3]
  {
    q.w
  }

  /** The three-argument constructor: the scalar part is set to 1. */
  function Make3(x: real, y: real, z: real): (q: Quat)
    ensures VectorPart(q) == [x, y, z] && ScalarPart(q) == 1.0
    ensures FromList([x, y, z]) == Ok(q)
  {
    Quat(x, y, z, 1.0)
  }

  /**
   * Construction from (and assignment of) an initializer list: exactly three or
   * four values are accepted, filling x, y, z (and w) in order; with three values
   * the scalar part is 1. Any other count is rejected before anything is stored.
   */
  function FromList(values: seq<real>): (r: Result<Quat>)
    ensures r.Ok? <==> |values| == 3 || |values| == 4
    ensures r.Err? ==> r.error == InvalidQuaternionSize
    ensures r.Ok? ==> Components(r.value)[..|values|] == values
    ensures r.Ok? && |values| == 3 ==> r.value.w == 1.0
  {
    if |values| != 3 && |values| != 4 then
      Err(InvalidQuaternionSize)
    else
      Ok(Quat(values[0], values[1], values[2], if |values| == 4 then values[3] else 1.0))
  }

  /** Read access by index: 0, 1, 2, 3 select x, y, z, w; any other index fails. */
  function Index(q: Quat, index: nat): (r: Result<real>)
    ensures r.Ok? <==> index < 4
    ensures r.Err? ==> r.error == IndexOutOfRange
    ensures r.Ok? ==> r.value == Components(q)[index]
  {
    match index
    case 0 => Ok(q.x)
    case 1 => Ok(q.y)
    case 2 => Ok(q.z)
    case 3 => Ok(q.w)
    case _ => Err(IndexOutOfRange)
  }

  /** Write access through the reference returned by operator[]: `q[index] = v`. */
  function Store(q: Quat, index: nat, v: real): (r: Result<Quat>)
    ensures r.Ok? <==> index < 4
    ensures r.Err? ==> r.error == IndexOutOfRange
    ensures r.Ok? ==> Components(r.value) == Components(q)[index := v]
  {
    match index
    case 0 => Ok(q.(x := v))
    case 1 => Ok(q.(y := v))
    case 2 => Ok(q.(z := v))
    case 3 => Ok(q.(w := v))
    case _ => Err(IndexOutOfRange)
  }

  /** operator== between two quaternions: all four components agree. */
  function Equal(a: Quat, b: Quat): (r: bool)
    ensures r <==> a == b
  {
    a.w == b.w && a.x == b.x && a.y == b.y && a.z == b.z
  }

  /** operator!=, the negation of operator==. */
  function NotEqual(a: Quat, b: Quat): (r: bool)
    ensures r <==> a != b
  {
    !Equal(a, b)
  }

  /**
   * operator== between a quaternion and an initializer list: a list whose size
   * is not 4 is never equal; otherwise the values are compared in x, y, z, w order.
   */
  function EqualsList(q: Quat, list: seq<real>): (r: bool)
    ensures r <==> list == Components(q)
    ensures |list| != 4 ==> !r
  {
    if |list| != 4 then false
    else q.x == list[0] && q.y == list[1] && q.z == list[2] && q.w == list[3]
  }

  /** Listing the components and constructing from that list gives back the quaternion. */
  lemma FromComponents(q: Quat)
    ensures FromList(Components(q)) == Ok(q)
    ensures EqualsList(q, Components(q))
  {
  }

  /** Reading back a stored component yields the stored value, and the other indices are untouched. */
  lemma StoreThenIndex(q: Quat, i: nat, j: nat, v: real)
    requires i < 4 && j < 4
    ensures Store(q, i, v).Ok?
    ensures Index(Store(q, i, v).value, j) == if i == j then Ok(v) else Index(q, j)
  {
  }
}

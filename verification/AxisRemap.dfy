/** The mounting correction of the IMU (emd_gaf.c): chip axes to forward-left-up, over the reals. */
module AxisRemap {

  datatype Vec = Vec(x: real, y: real, z: real)

  /** A quaternion w + xi + yj + zk. */
  datatype Quat = Quat(w: real, x: real, y: real, z: real)

  const ONE := Quat(1.0, 0.0, 0.0, 0.0)

  /** The turn the chip is mounted with; its matrix has rows (0, 0, -1), (-1, 0, 0) and (0, 1, 0). */
  const MOUNT := Quat(0.5, 0.5, -0.5, -0.5)

  function RemapVec(v: Vec): Vec {
    Vec(-v.z, -v.x, v.y)
  }

  function RemapQuat(q: Quat): Quat {
    Quat(0.5 * (q.w + q.x - q.y - q.z), 0.5 * (-q.w + q.x + q.y - q.z),
         0.5 * (q.w - q.x + q.y - q.z), 0.5 * (q.w + q.x + q.y + q.z))
  }

  /** A float that a function reaches through a pointer. */
  class Cell {
    var value: real

    constructor (v: real)
      ensures value == v
    {
      value := v;
    }
  }

  /** _remap_vec_2 */
  method RemapVec2(x: Cell, y: Cell, z: Cell)
    requires x != y && y != z && x != z
    modifies x, y, z
    ensures Vec(x.value, y.value, z.value) == RemapVec(old(Vec(x.value, y.value, z.value)))
  {
    var sx, sy, sz := x.value, y.value, z.value;
    x.value := -sz;
    y.value := -sx;
    z.value := sy;
  }

  /** _remap_quat_2 */
  method RemapQuat2(w: Cell, x: Cell, y: Cell, z: Cell)
    requires w != x && w != y && w != z && x != y && y != z && x != z
    modifies w, x, y, z
    ensures Quat(w.value, x.value, y.value, z.value) == RemapQuat(old(Quat(w.value, x.value, y.value, z.value)))
  {
    var qw, qx, qy, qz := w.value, x.value, y.value, z.value;
    w.value := 0.5 * (qw + qx - qy - qz);
    x.value := 0.5 * (-qw + qx + qy - qz);
    y.value := 0.5 * (qw - qx + qy - qz);
    z.value := 0.5 * (qw + qx + qy + qz);
  }

  // ---------- quaternion algebra ----------

  function Mul(a: Quat, b: Quat): Quat {
    Quat(a.w * b.w - a.x * b.x - a.y * b.y - a.z * b.z,
         a.w * b.x + a.x * b.w + a.y * b.z - a.z * b.y,
         a.w * b.y - a.x * b.z + a.y * b.w + a.z * b.x,
         a.w * b.z + a.x * b.y - a.y * b.x + a.z * b.w)
  }

  function Conj(a: Quat): Quat {
    Quat(a.w, -a.x, -a.y, -a.z)
  }

  function Norm2(a: Quat): real {
    a.w * a.w + a.x * a.x + a.y * a.y + a.z * a.z
  }

  function Pure(v: Vec): Quat {
    Quat(0.0, v.x, v.y, v.z)
  }

  /** The entries of the rotation matrix of a quaternion. */
  function Diagonal(a: real, b: real, c: real, d: real): real {
    a * a + b * b - c * c - d * d
  }

  function Plus(a: real, b: real, c: real, d: real): real {
    2.0 * (a * b + c * d)
  }

  function Minus(a: real, b: real, c: real, d: real): real {
    2.0 * (a * b - c * d)
  }

  function Column1(q: Quat): Vec {
    Vec(Diagonal(q.w, q.x, q.y, q.z), Plus(q.x, q.y, q.w, q.z), Minus(q.x, q.z, q.w, q.y))
  }

  function Column2(q: Quat): Vec {
    Vec(Minus(q.x, q.y, q.w, q.z), Diagonal(q.w, q.y, q.x, q.z), Plus(q.y, q.z, q.w, q.x))
  }

  function Column3(q: Quat): Vec {
    Vec(Plus(q.x, q.z, q.w, q.y), Minus(q.y, q.z, q.w, q.x), Diagonal(q.w, q.z, q.x, q.y))
  }

  function Scale(v: Vec, k: real): Vec {
    Vec(v.x * k, v.y * k, v.z * k)
  }

  function Add(u: Vec, v: Vec): Vec {
    Vec(u.x + v.x, u.y + v.y, u.z + v.z)
  }

  /** v turned by q: the rotation matrix of q applied to v (scaled by the squared norm of q). */
  function Rotate(q: Quat, v: Vec): Vec {
    var w, x, y, z := q.w, q.x, q.y, q.z;
    Vec((w * w + x * x - y * y - z * z) * v.x + 2.0 * (x * y - w * z) * v.y + 2.0 * (x * z + w * y) * v.z,
        2.0 * (x * y + w * z) * v.x + (w * w - x * x + y * y - z * z) * v.y + 2.0 * (y * z - w * x) * v.z,
        2.0 * (x * z - w * y) * v.x + 2.0 * (y * z + w * x) * v.y + (w * w - x * x - y * y + z * z) * v.z)
  }

  lemma RotateByColumns(q: Quat, v: Vec)
    ensures Rotate(q, v)
            == Add(Add(Scale(Column1(q), v.x), Scale(Column2(q), v.y)), Scale(Column3(q), v.z))
  {
  }

  function Conjugated(q: Quat, p: Quat): Quat {
    Mul(Mul(q, p), Conj(q))
  }

  /** The matrix form is the quaternion product q v q*. */
  lemma RotateIsConjugation(q: Quat, v: Vec)
    ensures Conjugated(q, Pure(v)) == Pure(Rotate(q, v))
  {
  }

  /** The vector map is the mounting rotation, and the quaternion map composes with its inverse. */
  lemma RemapIsMount(q: Quat, v: Vec)
    ensures Pure(RemapVec(v)) == Conjugated(MOUNT, Pure(v))
    ensures RemapQuat(q) == Mul(q, Conj(MOUNT)) && Mul(Conj(MOUNT), MOUNT) == ONE
  {
  }

  /** The remap permutes the columns of the rotation matrix as the mounting permutes the axes. */
  lemma Column1Of(q: Quat)
    ensures Column1(RemapQuat(q)) == Scale(Column3(q), -1.0)
  {
  }

  lemma Column2Of(q: Quat)
    ensures Column2(RemapQuat(q)) == Scale(Column1(q), -1.0)
  {
  }

  lemma Column3Of(q: Quat)
    ensures Column3(RemapQuat(q)) == Column2(q)
  {
  }

  /** Main result: turning the remapped vector by the remapped attitude gives the world vector that the
      original pair gives, for every vector and every quaternion. */
  lemma RemapPreservesMeaning(q: Quat, v: Vec)
    ensures Rotate(RemapQuat(q), RemapVec(v)) == Rotate(q, v)
  {
    hide Column1, Column2, Column3, RemapQuat, Rotate;
    RotateByColumns(q, v);
    RotateByColumns(RemapQuat(q), RemapVec(v));
    Column1Of(q);
    Column2Of(q);
    Column3Of(q);
  }

  /** Main result: the remap keeps the norm of an attitude and the length of a vector, so unit quaternions
      stay unit quaternions. */
  lemma RemapPreservesNorm(q: Quat, v: Vec)
    ensures Norm2(RemapQuat(q)) == Norm2(q)
    ensures Norm2(Pure(RemapVec(v))) == Norm2(Pure(v))
  {
  }

  /** Where the chip's axes point: its x axis to the right, its y axis up, its z axis backwards. */
  lemma Axes()
    ensures RemapVec(Vec(1.0, 0.0, 0.0)) == Vec(0.0, -1.0, 0.0) && RemapVec(Vec(0.0, 1.0, 0.0)) == Vec(0.0, 0.0, 1.0)
    ensures RemapVec(Vec(0.0, 0.0, 1.0)) == Vec(-1.0, 0.0, 0.0)
  {
    var zero, one := 0.0, 1.0;
    assert -zero == 0.0 && -one == -1.0;
  }
}

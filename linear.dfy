/** Stand-ins for the cgmath vector and quaternion types, idealised over the reals. */
module Linear {

  /** cgmath::Vector3 */
  datatype Vec3 = Vec3(x: real, y: real, z: real)

  /** cgmath::Quaternion, written as Quaternion::new(s, x, y, z): scalar part first */
  datatype Quat = Quat(s: real, x: real, y: real, z: real)

  const Zero: Vec3 := Vec3(0.0, 0.0, 0.0)

  function Add(a: Vec3, b: Vec3): Vec3 {
    Vec3(a.x + b.x, a.y + b.y, a.z + b.z)
  }

  /** `v * s` */
  function Scale(v: Vec3, s: real): Vec3 {
    Vec3(v.x * s, v.y * s, v.z * s)
  }

  /** `v / s`, component by component */
  function Div(v: Vec3, s: real): Vec3
    requires s != 0.0
  {
    Vec3(v.x / s, v.y / s, v.z / s)
  }

  /** `-v` */
  function Neg(v: Vec3): Vec3 {
    Vec3(-v.x, -v.y, -v.z)
  }

  /** The squared norm of a quaternion; a unit quaternion has squared norm 1. */
  function NormSquared(q: Quat): real {
    q.s * q.s + q.x * q.x + q.y * q.y + q.z * q.z
  }

  lemma NegInvolutive(v: Vec3)
    ensures Neg(Neg(v)) == v
  {
  }
}

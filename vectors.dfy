/** Three-vectors over the reals, standing for ROOT's TVector3. Every operation the
    propagator and the tracker use is exact real arithmetic; the Euclidean magnitude
    needs a square root and is therefore passed around as a parameter `mag`. */
module Vectors {

  /** Non-negative reals: the range of a magnitude. */
  type NonNegReal = r: real | r >= 0.0

  datatype Vec3 = Vec3(x: real, y: real, z: real)

  const Zero: Vec3 := Vec3(0.0, 0.0, 0.0)

  function Add(a: Vec3, b: Vec3): Vec3 { Vec3(a.x + b.x, a.y + b.y, a.z + b.z) }

  function Sub(a: Vec3, b: Vec3): Vec3 { Vec3(a.x - b.x, a.y - b.y, a.z - b.z) }

  function Neg(a: Vec3): Vec3 { Vec3(-a.x, -a.y, -a.z) }

  function Scale(a: Vec3, k: real): Vec3 { Vec3(a.x * k, a.y * k, a.z * k) }

  function Dot(a: Vec3, b: Vec3): real { a.x * b.x + a.y * b.y + a.z * b.z }

  function Cross(a: Vec3, b: Vec3): Vec3
  {
    Vec3(a.y * b.z - a.z * b.y, a.z * b.x - a.x * b.z, a.x * b.y - a.y * b.x)
  }

  /** Component-wise product, `TVector3(a.X() * b.X(), a.Y() * b.Y(), a.Z() * b.Z())`. */
  function Hadamard(a: Vec3, b: Vec3): Vec3 { Vec3(a.x * b.x, a.y * b.y, a.z * b.z) }

  function Abs(r: real): real { if r < 0.0 then -r else r }

  /** TVector3::Unit: the vector divided by its magnitude, or the vector itself when its
      magnitude is zero. */
  function Unit(v: Vec3, mag: Vec3 -> NonNegReal): Vec3
  {
    if mag(v) > 0.0 then Scale(v, 1.0 / mag(v)) else v
  }

}

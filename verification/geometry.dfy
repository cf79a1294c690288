/** Unity's `Vector3`, `Quaternion` and `Bounds`, with `float` components modelled as `real`. */
module Geometry {

  datatype Vec3 = Vec3(x: real, y: real, z: real)
  {
    /** `a + b`. */
    function Plus(b: Vec3): Vec3 {
      Vec3(x + b.x, y + b.y, z + b.z)
    }

    /** `v * k` for a scalar `k`. */
    function Times(k: real): Vec3 {
      Vec3(x * k, y * k, z * k)
    }

    /** `Vector3.Scale(a, b)`: component-wise product. */
    function ScaleBy(b: Vec3): Vec3 {
      Vec3(x * b.x, y * b.y, z * b.z)
    }

    /** `-v`. */
    function Negate(): Vec3 {
      Vec3(-x, -y, -z)
    }
  }

  const Zero: Vec3 := Vec3(0.0, 0.0, 0.0)

  /** A rotation; only the identity is ever written by the modelled code. */
  datatype Quaternion = Quaternion(x: real, y: real, z: real, w: real)

  /** `Quaternion.identity`. */
  const IdentityRotation: Quaternion := Quaternion(0.0, 0.0, 0.0, 1.0)

  /** `Collider.bounds`: a world-space axis-aligned box given by its minimum corner and its size. */
  datatype Bounds = Bounds(min: Vec3, size: Vec3)
  {
    function Volume(): real {
      size.x * size.y * size.z
    }
  }
}

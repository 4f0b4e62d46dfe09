/** Unity's Vector3, over mathematical reals. */
module Geometry {
  datatype Vector3 = Vector3(x: real, y: real, z: real)

  const Zero := Vector3(0.0, 0.0, 0.0)
}

/** Small value types shared by the whole model. */
module Common {

  /** A C# reference that may be null, or a lookup that may miss. */
  datatype Option<T> = None | Some(value: T)

  /** The C# `byte` type. */
  type Byte = b: int | 0 <= b < 256

  /** OpenTK's `Vector3i`: three integer components. */
  datatype Vec3i = Vec3i(x: int, y: int, z: int)

  function Scale(v: Vec3i, k: int): Vec3i
  {
    Vec3i(v.x * k, v.y * k, v.z * k)
  }

  function Add(a: Vec3i, b: Vec3i): Vec3i
  {
    Vec3i(a.x + b.x, a.y + b.y, a.z + b.z)
  }
}

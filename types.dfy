/** Value types shared by the launch-geometry and mesh modules. */
module Types {

  /** A Go `[3]int`: cell counts or periodic repetition counts per axis. */
  datatype Int3 = Int3(x: int, y: int, z: int)

  /** A Go `[3]float64` cell size; only compared for equality and for positivity. */
  datatype Real3 = Real3(x: real, y: real, z: real)

  /** A Go slice that may be nil. */
  datatype Option<T> = None | Some(value: T)

  /** The outcome of an operation that may panic with a user error. */
  datatype Outcome = Pass | Fail(message: string)

  /** A value, or the message of the panic that replaced it. */
  datatype Result<T> = Ok(value: T) | Err(message: string)
}

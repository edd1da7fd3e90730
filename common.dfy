/** Values shared by every module of the data-partitioning model. */
module Common {

  /** One scalar of the data tensor. The partitioner only moves scalars
      around, never computes with them, so an exact `real` stands in for
      the tensor's floating-point element type. */
  type Scalar = real

  /** One row of the 2-D data tensor. */
  type Row = seq<Scalar>

  /** Python's `None` (an unset field) or a value. */
  datatype Option<+T> = None | Some(value: T)

  /** The failures the wrapped dataset raises when the partitioner's state
      is read: `Uninitialized` where Python subscripts or measures `None`
      (a `TypeError`), `IndexOutOfRange` where a tensor index falls outside
      its rows (an `IndexError`). */
  datatype Error = Uninitialized | IndexOutOfRange

  datatype Result<+T> = Ok(value: T) | Err(error: Error)
}

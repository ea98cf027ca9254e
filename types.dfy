/** The enumerations the IR nodes are tagged with. */
module Types {

  /** Which kind of node a value is: a scalar, or one of the IR's structural nodes. */
  datatype ValType = Scalar | IterDomain | TensorDomain | Tensor | TensorView

  /** Element type of a value node. */
  datatype DataType = Float | Int | Null

  /** How a loop axis is executed: on a block or thread dimension of the device, or serially. */
  datatype ParallelType = BIDz | BIDy | BIDx | TIDz | TIDy | TIDx | Vectorize | Unroll | Serial
}

/**
 * Tensors as the layers see them: a fixed shape over a block of memory
 * whose values kernels may overwrite in place. 32-bit floats are modelled
 * as reals; no kernel arithmetic is modelled.
 */
module Tensors {

  /** A snapshot of a tensor: rows (entities), row length, and the values. */
  datatype TensorData = TensorData(Entities: int, Length: int, Values: seq<real>)

  class Tensor {
    const Entities: int
    const Length: int
    var Values: seq<real>

    function Contents(): (d: TensorData)
      reads this
      ensures d.Entities == Entities && d.Length == Length && d.Values == Values
    {
      TensorData(Entities, Length, Values)
    }

    constructor (d: TensorData)
      ensures Contents() == d
    {
      Entities := d.Entities;
      Length := d.Length;
      Values := d.Values;
    }
  }
}

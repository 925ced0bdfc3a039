/** Tensors abstracted to a shape and their elements in row-major order,
    and the errors the tensor library raises on the paths modelled here. */
module Tensors {

  /** The failures of the vectorisation helpers, each standing for an
      exception the tensor library raises. */
  datatype Error =
    | EmptyList     // torch.cat of an empty list, or parameters[0] of an empty list
    | MissingGrad   // param.grad is None, so param.grad.view fails
    | BadView       // a view/view_as whose element count does not fit the target shape
    | NoExampleDim  // shape[0] / size(0) of a 0-dimensional tensor

  datatype Result<+R> = Success(value: R) | Failure(error: Error)

  datatype Option<+T> = None | Some(value: T)

  /** The number of elements of a tensor of the given shape. */
  function Product(shape: seq<nat>): nat
  {
    if shape == [] then 1 else shape[0] * Product(shape[1..])
  }

  datatype TensorData<T> = TensorData(shape: seq<nat>, data: seq<T>)

  /** A tensor always holds exactly as many elements as its shape says. */
  type Tensor<T> = t: TensorData<T> | |t.data| == Product(t.shape) witness TensorData([0], [])

  /** The element count that `t.view(1, -1).size(1)` reports. */
  function Numel<T>(t: Tensor<T>): nat
  {
    |t.data|
  }

  /** A tensor of the given shape with every element 0, as `grad.zero_()` leaves it. */
  function Zeros(shape: seq<nat>): (t: Tensor<real>)
    ensures t.shape == shape
    ensures forall k :: 0 <= k < |t.data| ==> t.data[k] == 0.0
  {
    TensorData(shape, seq(Product(shape), _ => 0.0))
  }
}

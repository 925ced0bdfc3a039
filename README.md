# Parameter vectorisation of certified-removal's utils.py, in Dafny

This project models the parameter-vectorisation layer of `utils.py` in the
certified-removal training code, and proves properties of that model.
There are four pieces:

- `params_to_vec` flattens a model's parameters, or their gradient buffers,
  into one vector.
- `vec_to_params` cuts a vector back into one tensor per parameter.
- `batch_grads_to_vec` and `batch_vec_to_grads` are the per-example
  versions. Every tensor has a leading example dimension N, and each example
  gets one row.
- `add_noisy_gradient` perturbs a gradient vector with scaled noise. It then
  writes the vector back, one chunk at a time, into the `grad` fields of the
  extractor's parameters, and of the classifier's too when `include_linear`
  is set.

A tensor is a shape and its elements in row-major order. The subset type
`Tensors.Tensor` keeps the element count equal to the product of the
shape. Each exception the tensor library raises on these paths is a
`Failure` of `Tensors.Result`:

- `EmptyList`: `torch.cat([])`, or `parameters[0]` of an empty list.
- `MissingGrad`: `param.grad` is `None`.
- `BadView`: a view whose element count does not fit the target shape,
  including `view(0, -1)`.
- `NoExampleDim`: `shape[0]` of a 0-dimensional tensor.

There are four modules:

- `Tensors` (`tensor.dfy`) holds shapes, tensors and errors.
- `Vectorize` (`vectorize.dfy`) is the specification of 1-D flattening and
  cutting, with its lemmas.
- `Batched` (`batched.dfy`) is the specification of the per-example matrix,
  with its lemmas.
- `Utils` (`utils.dfy`) holds a `Param` class with mutable `data` and `grad`
  fields. Its methods run the same loops as the source. Each loop keeps
  either the "remaining input" invariant or the "offset so far" invariant.
  Each method is proved equal to the specification function or, for the
  write-back, proved to leave each `grad` field holding a specified chunk.

Element values are `real`: exact arithmetic stands in for floating point.
The vectorisation functions are generic in the element type. The random
draw of `torch.randn` is a parameter `draw` of `AddNoisyGradient`, and the
noise it adds is `draw[k] * C * std`.

## Model

| member | source | states |
|---|---|---|
| Vectorize.FlattenLength | utils.py:100-107 | the flattened vector has exactly as many elements as all the tensors together |
| Vectorize.FlattenChunk | utils.py:100-107 | the i-th tensor's elements sit in the flattened vector at its offset (the sizes of the tensors before it), in enumeration order |
| Vectorize.FlattenFrom | utils.py:102-106 | flattening from the i-th tensor on is that tensor's elements followed by the flattening of the rest |
| Vectorize.SameShapesSameSize | utils.py:103-106 | lists whose tensors have the same shapes one for one (values and their grads) have the same total size |
| Vectorize.UnflattenFrom | utils.py:111-114 | one loop step of vec_to_params: it fails the view when the remaining vector is shorter than the parameter, and otherwise puts the chunk of the parameter's shape in front of the result for the rest of the vector |
| Vectorize.UnflattenDefined | utils.py:109-115 | vec_to_params succeeds exactly when the vector holds at least the total size, and then returns one tensor per parameter |
| Vectorize.UnflattenChunks | utils.py:109-115 | the i-th result has the i-th parameter's shape, and its elements are the slice of the vector starting at the sum of the earlier parameters' sizes |
| Vectorize.UnflattenChunkAt | utils.py:109-115 | the i-th result of vec_to_params is the i-th chunk that the write-back of add_noisy_gradient reads |
| Vectorize.TrailingIgnored | utils.py:109-115 | elements of the vector beyond the total size do not change the result |
| Vectorize.RoundTrip | utils.py:100-115 | cutting a flattened list back up gives every tensor back, shape and elements |
| Vectorize.FlattenUnflatten | utils.py:100-115 | flattening what vec_to_params returns gives the vector's first total-size elements |
| Vectorize.OffsetNext | utils.py:112-114 | each loop step advances the offset by the current parameter's element count |
| Vectorize.OffsetMonotone | utils.py:112-114 | offsets never decrease along the list and never exceed the total size |
| Vectorize.TotalSizeAppend | utils.py:62-71 | the size of two lists one after the other is the sum of their sizes |
| Vectorize.OffsetAppend | utils.py:66-71 | in the extractor's list followed by the classifier's, the classifier's j-th chunk starts at the extractor's total size plus its offset among the classifier's parameters |
| Vectorize.ChunkAtDefined | utils.py:63-64 | a chunk can be read exactly when the vector reaches the next offset, and it has the parameter's shape |
| Vectorize.ChunkAtRest | utils.py:63-65 | the chunk at the i-th offset is the first element count of the remaining vector, and what follows it starts at the next offset |
| Vectorize.ChunksAfterNone | utils.py:62-65 | once the vector ends before a chunk does, it ends before every later chunk and before the total size |
| Batched.JoinRows | utils.py:121 | viewing data as N rows and joining the rows again gives the data back |
| Batched.RowsAt | utils.py:121 | row r of `view(N, -1)` holds elements r*k up to (r+1)*k |
| Batched.HCatEmpty | utils.py:119-122 | N empty rows are the identity of concatenation along columns |
| Batched.HCatAssoc | utils.py:119-122 | concatenation along columns is associative |
| Batched.SplitCols | utils.py:128-129 | `[:, :k]` and `[:, k:]` of a block of width k beside another matrix give the block and the matrix |
| Batched.HStackDefined | utils.py:118-122 | the side-by-side views exist exactly when the list is empty, or N > 0 and N divides every tensor's element count |
| Batched.BatchFlattenDefined | utils.py:117-122 | batch_grads_to_vec succeeds exactly when the list is not empty, the first tensor has a leading dimension N > 0, and N divides every element count |
| Batched.ExampleWidth | utils.py:121 | a tensor with leading dimension N holds N times its per-example size, so `view(N, -1)` has the per-example size as its width |
| Batched.HStackRows | utils.py:120-122 | when all tensors lead with N > 0, row r of the side-by-side views is example r's slice of every tensor, in order |
| Batched.ExampleRowLength | utils.py:120-122 | every example row is as long as the per-example sizes added up |
| Batched.BatchFlattenShape | utils.py:117-122 | batch_grads_to_vec of tensors sharing N > 0 is an N-row matrix whose rows have the summed per-example width, and row r is example r's slices in order |
| Batched.UnstackHead | utils.py:127-129 | the first tensor's columns of the side-by-side views, joined, are that tensor's elements, and the columns after them are the rest of the views |
| Batched.HStackRoundTrip | utils.py:117-130 | cutting the side-by-side views back up gives every tensor back |
| Batched.BatchRoundTrip | utils.py:117-130 | batch_vec_to_grads(batch_grads_to_vec(g), g) reproduces every tensor of g, shape and elements |
| Batched.BatchUnflattenShapes | utils.py:124-130 | a successful batch_vec_to_grads yields one tensor per entry, each with that entry's shape |
| Batched.BatchUnflattenFrom | utils.py:126-129 | one loop step of batch_vec_to_grads: the 0-d and zero-examples failures, the size check of the view, and the block in front of the result for the remaining columns |
| Batched.HStackFrom | utils.py:120-121 | one loop step of batch_grads_to_vec: the view fails unless N > 0 divides the element count, and otherwise the view goes beside the views of the rest |
| Utils.DistinctSplit | utils.py:58 | parameters of two models that are distinct together are distinct in each model, and no classifier parameter is an extractor parameter |
| Utils.ParamsToVec | utils.py:100-107 | the method's result is the flattening of the values, or of the grads with `grad`; a missing grad or an empty list fails; the length is the total size of the values |
| Utils.VecToParams | utils.py:109-115 | the loop's result equals the specification Unflatten, failures included |
| Utils.BatchGradsToVec | utils.py:117-122 | the loop's result equals the specification BatchFlatten, failures included |
| Utils.BatchVecToGrads | utils.py:124-130 | the loop's result equals the specification BatchUnflatten, failures included |
| Utils.Zeroed | utils.py:61 | a zeroed buffer exists exactly when there was one, and then it has its shape and only zeros |
| Utils.ZeroGrad | utils.py:61 | zero_grad leaves every value alone, fills every existing buffer with zeros, and leaves missing buffers missing; a gradient that had its parameter's shape still has it |
| Utils.WriteChunks | utils.py:62-65 | the write-back loop succeeds exactly when the vector holds the total size, and then hands on the rest of the vector after it; each grad becomes its chunk when the vector holds it, and otherwise keeps its old value; values are unchanged; a gradient that had its parameter's shape still has it |
| Utils.SetGrad | utils.py:64 | `param.grad = ...` sets the i-th parameter's gradient and leaves every other parameter's gradient, and every value, as it was |
| Utils.ZeroAndWrite | utils.py:61-65 | one model's zero_grad followed by its write-back loop: each grad is its chunk of the vector, or zeros where the vector ran out (a missing grad stays missing); it succeeds exactly when the vector holds the total size and hands on the rest; values are unchanged and gradient shapes stay valid |
| Utils.Noise | utils.py:59 | the noise is as long as the draw |
| Utils.Add | utils.py:60 | the perturbed vector is as long as the gradient vector |
| Utils.AddNoisyGradient | utils.py:58-72 | extractor grads hold their chunks of grad_vec + noise, or zeros where the vector ran out; with include_linear, classifier grads hold their chunks of what follows the extractor's total size; otherwise the classifier's grads are untouched; it succeeds exactly when the vector is long enough for every parameter written; it returns the noise it added; values are unchanged, and every gradient that had its parameter's shape still has it |
| Utils.ZeroStdNoise | utils.py:59-60 | with std = 0 the noise is all zeros, the perturbed vector is grad_vec itself, and every chunk written is grad_vec's own chunk |

## Left out

- extract_features, per_example_gradient, clip_and_sum_gradients, loss_with_reg and compute_full_grad (utils.py:13-54, 75-98) are not modelled. They are data-loader iteration, autograd passes, calls to goodfellow_backprop (which is not part of this model), and floating-point norms and weighting.
- torch.randn is the input `draw`; randomness and `.to(device)` are not modelled.
- Floating point: elements are exact reals, so rounding in `grad_vec + noise` and `* C * std` is not modelled.
- The `.squeeze()` at utils.py:107 is not modelled: a one-element result stays a one-element vector instead of becoming a 0-d scalar, and the leading singleton dimension of the concatenation is not represented.
- View contiguity and stride compatibility are not modelled. Every view checks only the element count, and a column slice is read in row-major order. So Batched.BatchUnflatten accepts some reshapes of non-contiguous column slices that `view_as` would refuse, namely when a tensor's leading dimension differs from the matrix's row count but the element counts agree.
- Utils.AddNoisyGradient: requires the extractor and the classifier to share no parameter. The source does not check this. If a parameter were in both, `clf.zero_grad()` (utils.py:67) would zero the extractor chunk just written into it, and the classifier loop (utils.py:70) would overwrite it with a classifier chunk. The model covers the intended use, two separate models with disjoint parameter lists.
- `.clone()` and aliasing between a gradient buffer and the perturbed vector are not modelled. Each written gradient is a fresh value.
- Utils.ZeroGrad: models zero_grad as filling the existing buffers with zeros in place. It does not model the newer library default of setting every gradient to None. Where the write-back then fails, the later parameters show the zeroed buffers.
- Utils.WriteChunks: stops at the first chunk the vector cannot fill, as the raised view error does. The exception itself is the `ok = false` result.
- The matrix of batch_vec_to_grads is a sequence of rows, which need not be of equal length. The column-slice helpers take what a shorter row has.
- A classifier-chunk lemma in terms of the combined parameter list (`ChunkAt(v, extr + clf, |extr| + j)`) is not part of the model. Utils.AddNoisyGradient states the classifier's chunks on the vector remaining after the extractor's total size, and Vectorize.OffsetAppend relates the two offsets.

/** The specification of the per-example analogue of vectorisation
    (batch_grads_to_vec and batch_vec_to_grads): every tensor carries a
    leading example dimension N, and each example's row of the N-row matrix
    is that example's slice of every tensor, one tensor after another. */
module Batched {
  import opened Tensors
  import opened Vectorize

  /** A matrix as its list of rows. */
  type Matrix<T> = seq<seq<T>>

  lemma MulStep(n: nat, k: nat)
    requires 0 < n
    ensures n * k == k + (n - 1) * k
  {
  }

  lemma MulMono(r: nat, n: nat, k: nat)
    requires r < n
    ensures r * k + k <= n * k
    decreases n - r
  {
    assert (r + 1) * k == r * k + k;
    if r + 1 < n {
      MulMono(r + 1, n, k);
    }
  }

  lemma MulDiv(n: nat, k: nat)
    requires 0 < n
    ensures (n * k) / n == k && (n * k) % n == 0
  {
    var q := (n * k) / n;
    if q < k {
      MulMono(q, k, n);
    }
  }

  lemma DivMul(d: nat, n: nat)
    requires 0 < n && d % n == 0
    ensures d == n * (d / n)
  {
  }

  /** The elements of every row, one row after another. */
  function Join<T>(rows: Matrix<T>): seq<T>
  {
    if rows == [] then [] else rows[0] + Join(rows[1..])
  }

  /** d read as n rows of k elements each, as `view(n, -1)` reads it. */
  function Rows<T>(d: seq<T>, n: nat, k: nat): (rows: Matrix<T>)
    requires |d| == n * k
    ensures |rows| == n
    decreases n
  {
    if n == 0 then []
    else
      MulStep(n, k);
      [d[..k]] + Rows(d[k..], n - 1, k)
  }

  /** Two matrices of the same height side by side, as `torch.cat(dim=1)` puts them. */
  function HCat<T>(a: Matrix<T>, b: Matrix<T>): (m: Matrix<T>)
    requires |a| == |b|
    ensures |m| == |a|
  {
    seq(|a|, r requires 0 <= r < |a| => a[r] + b[r])
  }

  /** A matrix of n empty rows, the identity of HCat. */
  function EmptyRows<T>(n: nat): (m: Matrix<T>)
    ensures |m| == n
  {
    seq(n, _ => [])
  }

  lemma HCatEmpty<T>(m: Matrix<T>)
    ensures HCat(EmptyRows(|m|), m) == m && HCat(m, EmptyRows(|m|)) == m
  {
    assert forall r :: 0 <= r < |m| ==> HCat(EmptyRows(|m|), m)[r] == m[r];
    assert forall r :: 0 <= r < |m| ==> HCat(m, EmptyRows(|m|))[r] == m[r];
  }

  lemma HCatAssoc<T>(a: Matrix<T>, b: Matrix<T>, c: Matrix<T>)
    requires |a| == |b| == |c|
    ensures HCat(a, HCat(b, c)) == HCat(HCat(a, b), c)
  {
    forall r | 0 <= r < |a|
      ensures HCat(a, HCat(b, c))[r] == HCat(HCat(a, b), c)[r]
    {
      assert a[r] + (b[r] + c[r]) == (a[r] + b[r]) + c[r];
    }
  }

  /** Puts the columns already produced in front of a successful matrix. */
  function Beside<T>(m: Matrix<T>, r: Result<Matrix<T>>): Result<Matrix<T>>
    requires r.Success? ==> |r.value| == |m|
  {
    match r
    case Success(x) => Success(HCat(m, x))
    case Failure(e) => Failure(e)
  }

  /** Each tensor viewed as n rows, and all of them side by side; a tensor
      whose element count n does not divide fails the view. */
  function HStack<T>(g: seq<Tensor<T>>, n: nat): (r: Result<Matrix<T>>)
    ensures r.Success? ==> |r.value| == n
  {
    if g == [] then Success(EmptyRows(n))
    else if n == 0 || |g[0].data| % n != 0 then Failure(BadView)
    else
      match HStack(g[1..], n)
      case Failure(e) => Failure(e)
      case Success(m) =>
        DivMul(|g[0].data|, n);
        Success(HCat(Rows(g[0].data, n, |g[0].data| / n), m))
  }

  /** batch_grads_to_vec: N is the leading dimension of the first tensor. */
  function BatchFlatten<T>(g: seq<Tensor<T>>): Result<Matrix<T>>
  {
    if g == [] then Failure(EmptyList)
    else if g[0].shape == [] then Failure(NoExampleDim)
    else HStack(g, g[0].shape[0])
  }

  function Min(a: nat, b: nat): nat
  {
    if a <= b then a else b
  }

  /** `m[:, :k]`: the first k columns of every row (fewer where a row is shorter). */
  function TakeCols<T>(m: Matrix<T>, k: nat): (c: Matrix<T>)
    ensures |c| == |m|
  {
    seq(|m|, r requires 0 <= r < |m| => m[r][..Min(k, |m[r]|)])
  }

  /** `m[:, k:]`: every row without its first k columns. */
  function DropCols<T>(m: Matrix<T>, k: nat): (c: Matrix<T>)
    ensures |c| == |m|
  {
    seq(|m|, r requires 0 <= r < |m| => m[r][Min(k, |m[r]|)..])
  }

  /** The number of elements one example contributes to a tensor of this shape. */
  function ExampleSize(shape: seq<nat>): nat
    requires shape != []
  {
    Product(shape[1..])
  }

  /** batch_vec_to_grads: for each tensor, its per-example size of columns
      from every row, viewed as that tensor's shape; the rest of the columns
      go to the next tensor. */
  function BatchUnflatten<T>(m: Matrix<T>, g: seq<Tensor<T>>): Result<seq<Tensor<T>>>
    decreases |g|
  {
    if g == [] then Success([])
    else if g[0].shape == [] then Failure(NoExampleDim)
    else if g[0].shape[0] == 0 then Failure(BadView)
    else
      var size := ExampleSize(g[0].shape);
      var block := Join(TakeCols(m, size));
      if |block| != |g[0].data| then Failure(BadView)
      else
        var head: Tensor<T> := TensorData(g[0].shape, block);
        match BatchUnflatten(DropCols(m, size), g[1..])
        case Failure(e) => Failure(e)
        case Success(rest) => Success([head] + rest)
  }

  /** Every tensor of g has a leading example dimension of n. */
  ghost predicate SameBatch<T>(g: seq<Tensor<T>>, n: nat)
  {
    forall i :: 0 <= i < |g| ==> g[i].shape != [] && g[i].shape[0] == n
  }

  /** Example r's slice of a tensor whose leading dimension is n. */
  function ExampleSlice<T>(t: Tensor<T>, n: nat, r: nat): seq<T>
    requires t.shape != [] && t.shape[0] == n && r < n
  {
    var k := ExampleSize(t.shape);
    MulMono(r, n, k);
    t.data[r * k..r * k + k]
  }

  /** Example r's row: its slice of every tensor, one tensor after another. */
  function ExampleRow<T>(g: seq<Tensor<T>>, n: nat, r: nat): seq<T>
    requires SameBatch(g, n) && r < n
  {
    if g == [] then [] else ExampleSlice(g[0], n, r) + ExampleRow(g[1..], n, r)
  }

  /** The number of columns of the flattened matrix. */
  function RowWidth<T>(g: seq<Tensor<T>>): nat
    requires forall i :: 0 <= i < |g| ==> g[i].shape != []
  {
    if g == [] then 0 else ExampleSize(g[0].shape) + RowWidth(g[1..])
  }

  /** Reading data as rows and joining the rows again gives the data back. */
  lemma {:induction false} JoinRows<T>(d: seq<T>, n: nat, k: nat)
    requires |d| == n * k
    ensures Join(Rows(d, n, k)) == d
    decreases n
  {
    if n > 0 {
      MulStep(n, k);
      JoinRows(d[k..], n - 1, k);
      assert d == d[..k] + d[k..];
    }
  }

  /** Row r of the view holds elements r*k up to (r+1)*k of the data. */
  lemma {:induction false} RowsAt<T>(d: seq<T>, n: nat, k: nat, r: nat)
    requires |d| == n * k && r < n
    ensures r * k + k <= |d|
    ensures Rows(d, n, k)[r] == d[r * k..r * k + k]
    decreases n
  {
    MulMono(r, n, k);
    MulStep(n, k);
    if r > 0 {
      RowsAt(d[k..], n - 1, k, r - 1);
      assert (r - 1) * k + k == r * k;
      assert d[k..][(r - 1) * k..(r - 1) * k + k] == d[r * k..r * k + k];
    }
  }

  /** Taking a block's width of columns from a side-by-side pair gives the
      left block, and dropping them gives the right one. */
  lemma SplitCols<T>(a: Matrix<T>, b: Matrix<T>, k: nat)
    requires |a| == |b| && forall r :: 0 <= r < |a| ==> |a[r]| == k
    ensures TakeCols(HCat(a, b), k) == a
    ensures DropCols(HCat(a, b), k) == b
  {
    var m := HCat(a, b);
    forall r | 0 <= r < |a|
      ensures TakeCols(m, k)[r] == a[r] && DropCols(m, k)[r] == b[r]
    {
      assert m[r] == a[r] + b[r];
    }
  }

  /** batch_grads_to_vec succeeds exactly when the list is not empty, its
      first tensor has a leading dimension N > 0, and N divides the element
      count of every tensor. */
  lemma {:induction false} HStackDefined<T>(g: seq<Tensor<T>>, n: nat)
    ensures HStack(g, n).Success? <==>
      g == [] || (0 < n && forall i :: 0 <= i < |g| ==> |g[i].data| % n == 0)
  {
    if g != [] && 0 < n && |g[0].data| % n == 0 {
      HStackDefined(g[1..], n);
      assert forall i :: 1 <= i < |g| ==> g[i] == g[1..][i - 1];
    }
  }

  lemma BatchFlattenDefined<T>(g: seq<Tensor<T>>)
    ensures BatchFlatten(g).Success? <==>
      && g != [] && g[0].shape != [] && 0 < g[0].shape[0]
      && forall i :: 0 <= i < |g| ==> |g[i].data| % g[0].shape[0] == 0
  {
    if g != [] && g[0].shape != [] {
      HStackDefined(g, g[0].shape[0]);
    }
  }

  /** A tensor whose leading dimension is n has n times its per-example size
      elements, and view(n, -1) gives rows of exactly that size. */
  lemma ExampleWidth<T>(t: Tensor<T>, n: nat)
    requires t.shape != [] && t.shape[0] == n && 0 < n
    ensures |t.data| == n * ExampleSize(t.shape)
    ensures |t.data| % n == 0 && |t.data| / n == ExampleSize(t.shape)
  {
    MulDiv(n, ExampleSize(t.shape));
  }

  /** The row of example r. */
  lemma {:induction false} HStackRows<T>(g: seq<Tensor<T>>, n: nat)
    requires SameBatch(g, n) && 0 < n
    ensures HStack(g, n).Success?
    ensures forall r :: 0 <= r < n ==> HStack(g, n).value[r] == ExampleRow(g, n, r)
  {
    if g != [] {
      var t := g[0];
      ExampleWidth(t, n);
      var k := ExampleSize(t.shape);
      assert SameBatch(g[1..], n) by {
        assert forall i :: 0 <= i < |g| - 1 ==> g[1..][i] == g[i + 1];
      }
      HStackRows(g[1..], n);
      var tail := HStack(g[1..], n).value;
      var c := Rows(t.data, n, k);
      assert HStack(g, n) == Success(HCat(c, tail));
      forall r | 0 <= r < n
        ensures HCat(c, tail)[r] == ExampleRow(g, n, r)
      {
        RowsAt(t.data, n, k, r);
      }
    }
  }

  /** Every row is as long as the examples' sizes added up. */
  lemma {:induction false} ExampleRowLength<T>(g: seq<Tensor<T>>, n: nat, r: nat)
    requires SameBatch(g, n) && r < n
    ensures |ExampleRow(g, n, r)| == RowWidth(g)
  {
    if g != [] {
      assert SameBatch(g[1..], n) by {
        assert forall i :: 0 <= i < |g| - 1 ==> g[1..][i] == g[i + 1];
      }
      ExampleRowLength(g[1..], n, r);
      MulMono(r, n, ExampleSize(g[0].shape));
    }
  }

  /** batch_grads_to_vec of tensors that share the leading dimension N > 0
      is an N-row matrix whose rows all have the summed per-example width and
      whose row r is example r's slice of every tensor, in list order. */
  lemma BatchFlattenShape<T>(g: seq<Tensor<T>>)
    requires g != [] && g[0].shape != [] && 0 < g[0].shape[0]
    requires SameBatch(g, g[0].shape[0])
    ensures BatchFlatten(g).Success?
    ensures |BatchFlatten(g).value| == g[0].shape[0]
    ensures forall r :: 0 <= r < g[0].shape[0] ==>
      && BatchFlatten(g).value[r] == ExampleRow(g, g[0].shape[0], r)
      && |BatchFlatten(g).value[r]| == RowWidth(g)
  {
    var n := g[0].shape[0];
    HStackRows(g, n);
    forall r | 0 <= r < n
      ensures |ExampleRow(g, n, r)| == RowWidth(g)
    {
      ExampleRowLength(g, n, r);
    }
  }

  /** Cutting one tensor's block off the front of the side-by-side views
      gives that tensor's data and leaves the rest of the views. */
  lemma UnstackHead<T>(t: Tensor<T>, n: nat, tail: Matrix<T>)
    requires t.shape != [] && t.shape[0] == n && 0 < n && |tail| == n
    ensures |t.data| % n == 0 && |t.data| / n == ExampleSize(t.shape)
    ensures var m := HCat(Rows(t.data, n, ExampleSize(t.shape)), tail);
      && Join(TakeCols(m, ExampleSize(t.shape))) == t.data
      && DropCols(m, ExampleSize(t.shape)) == tail
  {
    ExampleWidth(t, n);
    var k := ExampleSize(t.shape);
    var c := Rows(t.data, n, k);
    forall r | 0 <= r < n
      ensures |c[r]| == k
    {
      RowsAt(t.data, n, k, r);
    }
    SplitCols(c, tail, k);
    JoinRows(t.data, n, k);
  }

  /** Cutting the side-by-side views back up gives every tensor back. */
  lemma {:induction false} HStackRoundTrip<T>(g: seq<Tensor<T>>, n: nat)
    requires SameBatch(g, n) && 0 < n
    ensures HStack(g, n).Success?
    ensures BatchUnflatten(HStack(g, n).value, g) == Success(g)
  {
    HStackDefined(g, n);
    if g != [] {
      var t := g[0];
      assert SameBatch(g[1..], n) by {
        assert forall i :: 0 <= i < |g| - 1 ==> g[1..][i] == g[i + 1];
      }
      HStackRoundTrip(g[1..], n);
      var tail := HStack(g[1..], n).value;
      UnstackHead(t, n, tail);
      assert HStack(g, n) == Success(HCat(Rows(t.data, n, ExampleSize(t.shape)), tail));
      assert TensorData(t.shape, t.data) == t;
      assert [t] + g[1..] == g;
    }
  }

  /** batch_vec_to_grads(batch_grads_to_vec(g), g) reproduces g, shapes and
      values, whenever the tensors share a leading dimension N > 0. */
  lemma BatchRoundTrip<T>(g: seq<Tensor<T>>)
    requires g != [] && g[0].shape != [] && 0 < g[0].shape[0]
    requires SameBatch(g, g[0].shape[0])
    ensures BatchFlatten(g).Success?
    ensures BatchUnflatten(BatchFlatten(g).value, g) == Success(g)
  {
    HStackRoundTrip(g, g[0].shape[0]);
  }

  /** A successful batch_vec_to_grads yields one tensor per entry of g, each
      with its entry's shape. */
  lemma {:induction false} BatchUnflattenShapes<T>(m: Matrix<T>, g: seq<Tensor<T>>)
    requires BatchUnflatten(m, g).Success?
    ensures |BatchUnflatten(m, g).value| == |g|
    ensures forall i :: 0 <= i < |g| ==> BatchUnflatten(m, g).value[i].shape == g[i].shape
    decreases |g|
  {
    if g != [] {
      var size := ExampleSize(g[0].shape);
      BatchUnflattenShapes(DropCols(m, size), g[1..]);
    }
  }

  /** batch_vec_to_grads at the i-th tensor: the checks it makes and, when
      they pass, the block it cuts off the front of rest. */
  lemma BatchUnflattenFrom<T>(rest: Matrix<T>, g: seq<Tensor<T>>, i: nat)
    requires i < |g|
    ensures g[i].shape == [] ==> BatchUnflatten(rest, g[i..]) == Failure(NoExampleDim)
    ensures g[i].shape != [] && g[i].shape[0] == 0 ==> BatchUnflatten(rest, g[i..]) == Failure(BadView)
    ensures g[i].shape != [] && g[i].shape[0] != 0 ==>
      var size := ExampleSize(g[i].shape);
      var block := Join(TakeCols(rest, size));
      && (|block| != |g[i].data| ==> BatchUnflatten(rest, g[i..]) == Failure(BadView))
      && (|block| == |g[i].data| ==>
            BatchUnflatten(rest, g[i..]) == Cons(TensorData(g[i].shape, block),
                                                BatchUnflatten(DropCols(rest, size), g[i + 1..])))
  {
    assert g[i..][0] == g[i];
    assert g[i..][1..] == g[i + 1..];
  }

  /** batch_grads_to_vec at the i-th tensor: the view it checks and the
      columns it puts in front of the rest. */
  lemma HStackFrom<T>(g: seq<Tensor<T>>, n: nat, i: nat)
    requires i < |g|
    ensures n == 0 || |g[i].data| % n != 0 ==> HStack(g[i..], n) == Failure(BadView)
    ensures 0 < n && |g[i].data| % n == 0 ==>
      && |g[i].data| == n * (|g[i].data| / n)
      && HStack(g[i..], n) == Beside(Rows(g[i].data, n, |g[i].data| / n), HStack(g[i + 1..], n))
  {
    assert g[i..][0] == g[i];
    assert g[i..][1..] == g[i + 1..];
    if 0 < n && |g[i].data| % n == 0 {
      DivMul(|g[i].data|, n);
    }
  }
}

/** The vectorisation helpers of utils.py and the gradient write-back of
    add_noisy_gradient, as the loops the source runs: each method builds
    its result step by step and is proved equal to the specification in
    Vectorize and Batched. */
module Utils {
  import opened Tensors
  import opened Vectorize
  import opened Batched

  /** A learnable parameter: its value and its gradient buffer, None until
      something assigns one. */
  class Param {
    var data: Tensor<real>
    var grad: Option<Tensor<real>>

    /** The tensor library refuses a gradient of another shape than its parameter's. */
    ghost predicate Valid()
      reads this
    {
      Fits(data, grad)
    }

    constructor (data: Tensor<real>)
      ensures this.data == data && grad == None && Valid()
    {
      this.data := data;
      grad := None;
    }
  }

  /** A gradient buffer fits a parameter value when it is missing or has the value's shape. */
  ghost predicate Fits(data: Tensor<real>, grad: Option<Tensor<real>>)
  {
    grad.Some? ==> grad.value.shape == data.shape
  }

  /** A model's parameter enumeration yields each parameter once; the two
      models of add_noisy_gradient share none. */
  ghost predicate Distinct(ps: seq<Param>)
  {
    forall i, j :: 0 <= i < j < |ps| ==> ps[i] != ps[j]
  }

  /** Two models whose parameters together are distinct are each distinct
      and share no parameter. */
  lemma DistinctSplit(xs: seq<Param>, ys: seq<Param>)
    requires Distinct(xs + ys)
    ensures Distinct(xs) && Distinct(ys)
    ensures forall j :: 0 <= j < |ys| ==> ys[j] !in xs
  {
    assert forall i :: 0 <= i < |xs| ==> (xs + ys)[i] == xs[i];
    assert forall j :: 0 <= j < |ys| ==> (xs + ys)[|xs| + j] == ys[j];
  }

  /** The parameters' values, in enumeration order. */
  function Values(ps: seq<Param>): (ts: seq<Tensor<real>>)
    reads ps
    ensures |ts| == |ps| && forall i :: 0 <= i < |ps| ==> ts[i] == ps[i].data
  {
    seq(|ps|, i requires 0 <= i < |ps| reads ps => ps[i].data)
  }

  /** The parameters' gradient buffers, or None when some parameter has none. */
  function Grads(ps: seq<Param>): (r: Option<seq<Tensor<real>>>)
    reads ps
    ensures r.Some? <==> forall i :: 0 <= i < |ps| ==> ps[i].grad.Some?
    ensures r.Some? ==> |r.value| == |ps| && forall i :: 0 <= i < |ps| ==> r.value[i] == ps[i].grad.value
  {
    if forall i :: 0 <= i < |ps| ==> ps[i].grad.Some? then
      Some(seq(|ps|, i requires 0 <= i < |ps| && ps[i].grad.Some? reads ps => ps[i].grad.value))
    else None
  }

  /** params_to_vec: the parameters' values (or, with grad, their gradient
      buffers) concatenated in enumeration order. A missing gradient fails
      its view, and concatenating an empty list fails. */
  method ParamsToVec(ps: seq<Param>, grad: bool) returns (r: Result<seq<real>>)
    requires forall i :: 0 <= i < |ps| ==> ps[i].Valid()
    ensures !grad ==> r == (if ps == [] then Failure(EmptyList) else Success(Flatten(Values(ps))))
    ensures grad ==> r == match Grads(ps)
                          case None => Failure(MissingGrad)
                          case Some(gs) => if ps == [] then Failure(EmptyList) else Success(Flatten(gs))
    ensures r.Success? ==> |r.value| == TotalSize(Values(ps))
  {
    ghost var ts := if grad && Grads(ps).Some? then Grads(ps).value else Values(ps);
    ghost var complete := !grad || Grads(ps).Some?;
    var vec: seq<real> := [];
    var i := 0;
    while i < |ps|
      invariant 0 <= i <= |ps| && |ts| == |ps|
      invariant grad ==> forall j :: 0 <= j < i ==> ps[j].grad.Some?
      invariant complete ==> Flatten(ts) == vec + Flatten(ts[i..])
    {
      var piece: Tensor<real>;
      if grad {
        if ps[i].grad.None? {
          assert Grads(ps).None?;
          return Failure(MissingGrad);
        }
        piece := ps[i].grad.value;
      } else {
        piece := ps[i].data;
      }
      if complete {
        FlattenFrom(ts, i);
        assert piece == ts[i];
        ConcatAssoc(vec, piece.data, Flatten(ts[i + 1..]));
      }
      vec := vec + piece.data;
      i := i + 1;
    }
    assert complete;
    if |ps| == 0 {
      assert grad ==> Grads(ps) == Some([]);
      return Failure(EmptyList);
    }
    assert ts[i..] == [];
    assert vec == Flatten(ts);
    FlattenLength(ts);
    SameShapesSameSize(ts, Values(ps));
    r := Success(vec);
  }

  /** vec_to_params: one chunk of vec per parameter, front to back, each
      viewed as that parameter's shape. */
  method VecToParams<T>(vec: seq<T>, ps: seq<Tensor<T>>) returns (r: Result<seq<Tensor<T>>>)
    ensures r == Unflatten(vec, ps)
  {
    var rest := vec;
    var out: seq<Tensor<T>> := [];
    var i := 0;
    assert ps[i..] == ps;
    PrependNothing(Unflatten(vec, ps));
    while i < |ps|
      invariant 0 <= i <= |ps|
      invariant Unflatten(vec, ps) == PrependAll(out, Unflatten(rest, ps[i..]))
    {
      var size := Numel(ps[i]);
      UnflattenFrom(rest, ps, i);
      if |rest| < size {
        return Failure(BadView);
      }
      var chunk: Tensor<T> := TensorData(ps[i].shape, rest[..size]);
      PrependCons(out, chunk, Unflatten(rest[size..], ps[i + 1..]));
      out := out + [chunk];
      rest := rest[size..];
      i := i + 1;
    }
    assert ps[i..] == [] && out + [] == out;
    r := Success(out);
  }

  /** batch_grads_to_vec: every tensor viewed as N rows, N the leading
      dimension of the first, and the views put side by side. */
  method BatchGradsToVec<T>(g: seq<Tensor<T>>) returns (r: Result<Matrix<T>>)
    ensures r == BatchFlatten(g)
  {
    if |g| == 0 {
      return Failure(EmptyList);
    }
    if |g[0].shape| == 0 {
      return Failure(NoExampleDim);
    }
    var n := g[0].shape[0];
    var m: Matrix<T> := EmptyRows(n);
    var i := 0;
    assert g[i..] == g;
    if HStack(g, n).Success? {
      HCatEmpty(HStack(g, n).value);
    }
    while i < |g|
      invariant 0 <= i <= |g| && |m| == n
      invariant HStack(g, n) == Beside(m, HStack(g[i..], n))
    {
      HStackFrom(g, n, i);
      if n == 0 || |g[i].data| % n != 0 {
        return Failure(BadView);
      }
      var view := Rows(g[i].data, n, |g[i].data| / n);
      if HStack(g[i + 1..], n).Success? {
        HCatAssoc(m, view, HStack(g[i + 1..], n).value);
      }
      m := HCat(m, view);
      i := i + 1;
    }
    assert g[i..] == [];
    HCatEmpty(m);
    r := Success(m);
  }

  /** batch_vec_to_grads: for each tensor, its per-example size of columns
      of every row, viewed as that tensor's shape, front to back. */
  method BatchVecToGrads<T>(vec: Matrix<T>, g: seq<Tensor<T>>) returns (r: Result<seq<Tensor<T>>>)
    ensures r == BatchUnflatten(vec, g)
  {
    var rest := vec;
    var out: seq<Tensor<T>> := [];
    var i := 0;
    assert g[i..] == g;
    PrependNothing(BatchUnflatten(vec, g));
    while i < |g|
      invariant 0 <= i <= |g|
      invariant BatchUnflatten(vec, g) == PrependAll(out, BatchUnflatten(rest, g[i..]))
    {
      var p := g[i];
      BatchUnflattenFrom(rest, g, i);
      if |p.shape| == 0 {
        return Failure(NoExampleDim);
      }
      if p.shape[0] == 0 {
        return Failure(BadView);
      }
      var size := ExampleSize(p.shape);
      var block := Join(TakeCols(rest, size));
      if |block| != |p.data| {
        return Failure(BadView);
      }
      var chunk: Tensor<T> := TensorData(p.shape, block);
      PrependCons(out, chunk, BatchUnflatten(DropCols(rest, size), g[i + 1..]));
      out := out + [chunk];
      rest := DropCols(rest, size);
      i := i + 1;
    }
    assert g[i..] == [] && out + [] == out;
    r := Success(out);
  }

  /** A gradient buffer after `zero_grad`: zeros of the same shape, or still none. */
  function Zeroed(g: Option<Tensor<real>>): (z: Option<Tensor<real>>)
    ensures z.Some? <==> g.Some?
    ensures z.Some? ==> z.value.shape == g.value.shape && forall k :: 0 <= k < |z.value.data| ==> z.value.data[k] == 0.0
  {
    match g
    case None => None
    case Some(t) => Some(Zeros(t.shape))
  }

  /** model.zero_grad(): every existing gradient buffer is filled with zeros. */
  method ZeroGrad(ps: seq<Param>)
    requires Distinct(ps)
    modifies ps
    ensures forall i :: 0 <= i < |ps| ==> ps[i].data == old(ps[i].data)
    ensures forall i :: 0 <= i < |ps| ==> ps[i].grad == Zeroed(old(ps[i].grad))
    ensures forall i :: 0 <= i < |ps| ==> Fits(old(ps[i].data), old(ps[i].grad)) ==> Fits(ps[i].data, ps[i].grad)
  {
    var i := 0;
    while i < |ps|
      invariant 0 <= i <= |ps|
      invariant forall j :: 0 <= j < |ps| ==> ps[j].data == old(ps[j].data)
      invariant forall j :: 0 <= j < i ==> ps[j].grad == Zeroed(old(ps[j].grad))
      invariant forall j :: i <= j < |ps| ==> ps[j].grad == old(ps[j].grad)
    {
      ps[i].grad := Zeroed(ps[i].grad);
      i := i + 1;
    }
  }

  /** A gradient after the write-back: its chunk when the vector holds it,
      otherwise what zero_grad left. */
  function Written(chunk: Option<Tensor<real>>, before: Option<Tensor<real>>): Option<Tensor<real>>
  {
    match chunk
    case Some(t) => Some(t)
    case None => Zeroed(before)
  }

  /** `param.grad = t` for the i-th parameter; the others are distinct
      objects and keep their gradients. */
  method SetGrad(ps: seq<Param>, i: nat, t: Tensor<real>)
    requires Distinct(ps) && i < |ps|
    modifies ps[i]
    ensures forall j :: 0 <= j < |ps| ==> ps[j].data == old(ps[j].data)
    ensures forall j :: 0 <= j < |ps| ==> ps[j].grad == if j == i then Some(t) else old(ps[j].grad)
  {
    ps[i].grad := Some(t);
  }

  /** One write-back loop of add_noisy_gradient: each parameter's grad
      becomes the next chunk of vec viewed as its shape, and the rest of vec
      is handed on. The loop stops at the first chunk vec cannot fill; that
      parameter and the ones after it keep their gradients. */
  method WriteChunks(ps: seq<Param>, vec: seq<real>) returns (rest: seq<real>, ok: bool)
    requires Distinct(ps)
    modifies ps
    ensures forall i :: 0 <= i < |ps| ==> ps[i].data == old(ps[i].data)
    ensures ok <==> TotalSize(old(Values(ps))) <= |vec|
    ensures ok ==> rest == vec[TotalSize(old(Values(ps)))..]
    ensures forall i :: 0 <= i < |ps| ==>
      ps[i].grad == match ChunkAt(vec, old(Values(ps)), i) case Some(t) => Some(t) case None => old(ps[i].grad)
    ensures forall i :: 0 <= i < |ps| ==> Fits(old(ps[i].data), old(ps[i].grad)) ==> Fits(ps[i].data, ps[i].grad)
  {
    ghost var ts := Values(ps);
    rest := vec;
    var i := 0;
    while i < |ps|
      invariant 0 <= i <= |ps|
      invariant forall j :: 0 <= j < |ps| ==> ps[j].data == old(ps[j].data) == ts[j]
      invariant Offset(ts, i) <= |vec| && rest == vec[Offset(ts, i)..]
      invariant forall j :: 0 <= j < i ==> ChunkAt(vec, ts, j).Some? && ps[j].grad == ChunkAt(vec, ts, j)
      invariant forall j :: i <= j < |ps| ==> ps[j].grad == old(ps[j].grad)
      invariant forall j :: 0 <= j < i ==> Fits(ps[j].data, ps[j].grad)
    {
      var size := Numel(ps[i].data);
      ChunkAtRest(vec, ts, i, rest);
      if |rest| < size {
        ChunksAfterNone(vec, ts, i);
        ok := false;
        return;
      }
      SetGrad(ps, i, TensorData(ps[i].data.shape, rest[..size]));
      rest := rest[size..];
      i := i + 1;
    }
    assert ts[..|ps|] == ts;
    ok := true;
  }

  /** One model's part of add_noisy_gradient: zero_grad, then the
      write-back loop. Each gradient ends up as its chunk of vec, or as
      zero_grad left it where vec ran out. */
  method ZeroAndWrite(ps: seq<Param>, vec: seq<real>) returns (rest: seq<real>, ok: bool)
    requires Distinct(ps)
    modifies ps
    ensures forall i :: 0 <= i < |ps| ==> ps[i].data == old(ps[i].data)
    ensures ok <==> TotalSize(old(Values(ps))) <= |vec|
    ensures ok ==> rest == vec[TotalSize(old(Values(ps)))..]
    ensures forall i :: 0 <= i < |ps| ==> ps[i].grad == Written(ChunkAt(vec, old(Values(ps)), i), old(ps[i].grad))
    ensures forall i :: 0 <= i < |ps| ==> Fits(old(ps[i].data), old(ps[i].grad)) ==> Fits(ps[i].data, ps[i].grad)
  {
    ghost var ts := Values(ps);
    ZeroGrad(ps);
    assert Values(ps) == ts;
    rest, ok := WriteChunks(ps, vec);
  }

  /** The noise added to the gradient: a standard normal draw (passed in)
      scaled by C and by std. */
  function Noise(draw: seq<real>, c: real, std: real): (z: seq<real>)
    ensures |z| == |draw|
  {
    seq(|draw|, k requires 0 <= k < |draw| => draw[k] * c * std)
  }

  /** Elementwise sum of two vectors of one length. */
  function Add(u: seq<real>, v: seq<real>): (w: seq<real>)
    requires |u| == |v|
    ensures |w| == |u|
  {
    seq(|u|, k requires 0 <= k < |u| => u[k] + v[k])
  }

  /** add_noisy_gradient: perturbs grad_vec by the scaled draw, then writes
      the perturbed vector chunk by chunk into the extractor's parameters'
      gradients and, with includeLinear, continues into the classifier's.
      Returns the noise it added. */
  method AddNoisyGradient(extr: seq<Param>, clf: seq<Param>, gradVec: seq<real>,
                          c: real, std: real, draw: seq<real>, includeLinear: bool)
    returns (r: Result<seq<real>>)
    requires |draw| == |gradVec|
    requires Distinct(extr + clf)
    modifies extr, clf
    ensures forall i :: 0 <= i < |extr| ==> extr[i].data == old(extr[i].data)
    ensures forall j :: 0 <= j < |clf| ==> clf[j].data == old(clf[j].data)
    ensures var v := Add(gradVec, Noise(draw, c, std));
      forall i :: 0 <= i < |extr| ==>
        extr[i].grad == Written(ChunkAt(v, old(Values(extr)), i), old(extr[i].grad))
    ensures var v := Add(gradVec, Noise(draw, c, std));
      var k := TotalSize(old(Values(extr)));
      includeLinear && k <= |v| ==> forall j :: 0 <= j < |clf| ==>
        clf[j].grad == Written(ChunkAt(v[k..], old(Values(clf)), j), old(clf[j].grad))
    ensures var k := TotalSize(old(Values(extr)));
      !(includeLinear && k <= |gradVec|) ==> forall j :: 0 <= j < |clf| ==> clf[j].grad == old(clf[j].grad)
    ensures r.Success? <==>
      && TotalSize(old(Values(extr))) <= |gradVec|
      && (includeLinear ==> TotalSize(old(Values(extr))) + TotalSize(old(Values(clf))) <= |gradVec|)
    ensures r.Success? ==> r.value == Noise(draw, c, std)
    ensures r.Failure? ==> r.error == BadView
    ensures forall i :: 0 <= i < |extr| ==> Fits(old(extr[i].data), old(extr[i].grad)) ==> Fits(extr[i].data, extr[i].grad)
    ensures forall j :: 0 <= j < |clf| ==> Fits(old(clf[j].data), old(clf[j].grad)) ==> Fits(clf[j].data, clf[j].grad)
  {
    DistinctSplit(extr, clf);
    var noise := Noise(draw, c, std);
    var perturbed := Add(gradVec, noise);
    var rest, ok := ZeroAndWrite(extr, perturbed);
    if !ok {
      return Failure(BadView);
    }
    if includeLinear {
      rest, ok := ZeroAndWrite(clf, rest);
      if !ok {
        return Failure(BadView);
      }
    }
    r := Success(noise);
  }

  /** With std = 0 the noise is the zero vector and the perturbed vector is
      grad_vec itself, so every written gradient is grad_vec's own chunk. */
  lemma ZeroStdNoise(gradVec: seq<real>, c: real, draw: seq<real>, es: seq<Tensor<real>>, i: nat)
    requires |draw| == |gradVec| && i < |es|
    ensures forall k :: 0 <= k < |draw| ==> Noise(draw, c, 0.0)[k] == 0.0
    ensures Add(gradVec, Noise(draw, c, 0.0)) == gradVec
    ensures ChunkAt(Add(gradVec, Noise(draw, c, 0.0)), es, i) == ChunkAt(gradVec, es, i)
  {
  }
}

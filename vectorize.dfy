/** The specification of flattening a parameter list into one vector and of
    cutting a vector back into per-parameter tensors (params_to_vec and
    vec_to_params), with the properties the two share: enumeration order,
    offsets, lengths and the round trip. */
module Vectorize {
  import opened Tensors

  /** The elements of every tensor, one tensor after another, in list order. */
  function Flatten<T>(ts: seq<Tensor<T>>): seq<T>
  {
    if ts == [] then [] else ts[0].data + Flatten(ts[1..])
  }

  /** The number of elements of all tensors together. */
  function TotalSize<T>(ts: seq<Tensor<T>>): nat
  {
    if ts == [] then 0 else Numel(ts[0]) + TotalSize(ts[1..])
  }

  /** Where the i-th tensor's chunk starts in the flattened vector. */
  function Offset<T>(ts: seq<Tensor<T>>, i: nat): nat
    requires i <= |ts|
  {
    TotalSize(ts[..i])
  }

  /** The i-th chunk of vec, read as a tensor of the i-th tensor's shape, or
      None when vec ends before that chunk does. */
  function ChunkAt<T>(vec: seq<T>, ts: seq<Tensor<T>>, i: nat): Option<Tensor<T>>
    requires i < |ts|
  {
    var lo := Offset(ts, i);
    if lo + Numel(ts[i]) <= |vec| then Some(TensorData(ts[i].shape, vec[lo..lo + Numel(ts[i])]))
    else None
  }

  /** vec_to_params: one chunk per tensor, front to back, each reshaped to
      that tensor's shape; a chunk that vec cannot fill fails the view. */
  function Unflatten<T>(vec: seq<T>, ts: seq<Tensor<T>>): Result<seq<Tensor<T>>>
  {
    if ts == [] then Success([])
    else if |vec| < Numel(ts[0]) then Failure(BadView)
    else
      var head: Tensor<T> := TensorData(ts[0].shape, vec[..Numel(ts[0])]);
      Cons(head, Unflatten(vec[Numel(ts[0])..], ts[1..]))
  }

  /** Puts t in front of a successful list; passes a failure on. */
  function Cons<T>(t: Tensor<T>, r: Result<seq<Tensor<T>>>): Result<seq<Tensor<T>>>
  {
    match r
    case Success(rest) => Success([t] + rest)
    case Failure(e) => Failure(e)
  }

  /** Puts the tensors already produced in front of a successful list. */
  function PrependAll<T>(done: seq<Tensor<T>>, r: Result<seq<Tensor<T>>>): Result<seq<Tensor<T>>>
  {
    match r
    case Success(rest) => Success(done + rest)
    case Failure(e) => Failure(e)
  }

  /** vec_to_params at the i-th parameter: it fails when rest is too short
      for that parameter's chunk, and otherwise puts the chunk in front of
      what the remaining parameters get from the remaining vector. */
  lemma UnflattenFrom<T>(rest: seq<T>, ts: seq<Tensor<T>>, i: nat)
    requires i < |ts|
    ensures |rest| < Numel(ts[i]) ==> Unflatten(rest, ts[i..]) == Failure(BadView)
    ensures |rest| >= Numel(ts[i]) ==>
      Unflatten(rest, ts[i..]) == Cons(TensorData(ts[i].shape, rest[..Numel(ts[i])]),
                                       Unflatten(rest[Numel(ts[i])..], ts[i + 1..]))
  {
    assert ts[i..][0] == ts[i];
    assert ts[i..][1..] == ts[i + 1..];
  }

  lemma PrependNothing<T>(r: Result<seq<Tensor<T>>>)
    ensures PrependAll([], r) == r
  {
    if r.Success? {
      assert [] + r.value == r.value;
    }
  }

  lemma PrependCons<T>(done: seq<Tensor<T>>, t: Tensor<T>, r: Result<seq<Tensor<T>>>)
    ensures PrependAll(done, Cons(t, r)) == PrependAll(done + [t], r)
  {
    if r.Success? {
      assert done + ([t] + r.value) == (done + [t]) + r.value;
    }
  }

  /** Concatenation regroups freely. */
  lemma ConcatAssoc<T>(a: seq<T>, b: seq<T>, c: seq<T>)
    ensures a + (b + c) == (a + b) + c
  {
  }

  /** Flattening from the i-th tensor on: the i-th tensor's elements, then the rest. */
  lemma FlattenFrom<T>(ts: seq<Tensor<T>>, i: nat)
    requires i < |ts|
    ensures Flatten(ts[i..]) == ts[i].data + Flatten(ts[i + 1..])
  {
    assert ts[i..][0] == ts[i];
    assert ts[i..][1..] == ts[i + 1..];
  }

  /** The flattened vector has one element per element of the tensors. */
  lemma {:induction false} FlattenLength<T>(ts: seq<Tensor<T>>)
    ensures |Flatten(ts)| == TotalSize(ts)
  {
    if ts != [] {
      FlattenLength(ts[1..]);
    }
  }

  /** The size of a list split in two is the sum of the sizes of its parts. */
  lemma {:induction false} TotalSizeAppend<T>(xs: seq<Tensor<T>>, ys: seq<Tensor<T>>)
    ensures TotalSize(xs + ys) == TotalSize(xs) + TotalSize(ys)
  {
    if xs == [] {
      assert xs + ys == ys;
    } else {
      assert (xs + ys)[1..] == xs[1..] + ys;
      TotalSizeAppend(xs[1..], ys);
    }
  }

  /** Offsets grow by each tensor's size, so every chunk ends where the next begins. */
  lemma OffsetNext<T>(ts: seq<Tensor<T>>, i: nat)
    requires i < |ts|
    ensures Offset(ts, i + 1) == Offset(ts, i) + Numel(ts[i])
  {
    assert ts[..i + 1] == ts[..i] + [ts[i]];
    TotalSizeAppend(ts[..i], [ts[i]]);
    assert TotalSize([ts[i]]) == Numel(ts[i]) + TotalSize([ts[i]][1..]);
  }

  /** Offsets never decrease and never pass the total size. */
  lemma OffsetMonotone<T>(ts: seq<Tensor<T>>, i: nat, j: nat)
    requires i <= j <= |ts|
    ensures Offset(ts, i) <= Offset(ts, j) <= TotalSize(ts)
  {
    OffsetLe(ts, i, j);
    OffsetLe(ts, j, |ts|);
    assert ts[..|ts|] == ts;
  }

  lemma {:induction false} OffsetLe<T>(ts: seq<Tensor<T>>, i: nat, j: nat)
    requires i <= j <= |ts|
    ensures Offset(ts, i) <= Offset(ts, j)
    decreases j
  {
    if i < j {
      OffsetNext(ts, j - 1);
      OffsetLe(ts, i, j - 1);
    }
  }

  /** A slice of the second part of a concatenation, shifted by the first part's length. */
  lemma SliceAfter<T>(a: seq<T>, b: seq<T>, lo: nat, hi: nat)
    requires lo <= hi <= |b|
    ensures (a + b)[|a| + lo..|a| + hi] == b[lo..hi]
  {
  }

  /** The tail's offsets are the whole list's offsets less the head's size. */
  lemma OffsetTail<T>(ts: seq<Tensor<T>>, i: nat)
    requires 0 < |ts| && i < |ts|
    ensures Offset(ts, i + 1) == Numel(ts[0]) + Offset(ts[1..], i)
  {
    assert ts[..i + 1] == [ts[0]] + ts[1..][..i];
    TotalSizeAppend([ts[0]], ts[1..][..i]);
    assert TotalSize([ts[0]]) == Numel(ts[0]) + TotalSize([ts[0]][1..]);
  }

  /** Enumeration order: the i-th tensor's elements sit in the flattened
      vector at the i-th offset. */
  lemma {:induction false} FlattenChunk<T>(ts: seq<Tensor<T>>, i: nat)
    requires i < |ts|
    ensures Offset(ts, i) + Numel(ts[i]) <= |Flatten(ts)|
    ensures Flatten(ts)[Offset(ts, i)..Offset(ts, i) + Numel(ts[i])] == ts[i].data
  {
    FlattenLength(ts);
    OffsetNext(ts, i);
    OffsetMonotone(ts, i + 1, |ts|);
    if i == 0 {
      assert ts[..0] == [];
    } else {
      OffsetTail(ts, i - 1);
      FlattenChunk(ts[1..], i - 1);
      var n0 := Numel(ts[0]);
      var lo := Offset(ts[1..], i - 1);
      assert ts[1..][i - 1] == ts[i];
      FlattenLength(ts[1..]);
      SliceAfter(ts[0].data, Flatten(ts[1..]), lo, lo + Numel(ts[i]));
    }
  }

  /** A slice of what is left after dropping a prefix, shifted by the prefix's length. */
  lemma SliceOfDrop<T>(vec: seq<T>, k: nat, lo: nat, hi: nat)
    requires k <= |vec| && lo <= hi <= |vec| - k
    ensures vec[k..][lo..hi] == vec[k + lo..k + hi]
  {
  }

  /** vec_to_params succeeds exactly when vec holds at least all the
      tensors' elements. */
  lemma {:induction false} UnflattenDefined<T>(vec: seq<T>, ts: seq<Tensor<T>>)
    ensures Unflatten(vec, ts).Success? <==> TotalSize(ts) <= |vec|
    ensures Unflatten(vec, ts).Success? ==> |Unflatten(vec, ts).value| == |ts|
  {
    if ts != [] && |vec| >= Numel(ts[0]) {
      UnflattenDefined(vec[Numel(ts[0])..], ts[1..]);
    }
  }

  /** Every chunk of a list lies within any vector that holds the whole list. */
  lemma ChunkInBounds<T>(vec: seq<T>, ts: seq<Tensor<T>>, i: nat)
    requires TotalSize(ts) <= |vec| && i < |ts|
    ensures Offset(ts, i) + Numel(ts[i]) <= |vec|
  {
    OffsetNext(ts, i);
    OffsetMonotone(ts, i + 1, |ts|);
  }

  /** One step of vec_to_params: past the first tensor, the results are those
      of the rest of the list read from the rest of the vector. */
  lemma UnflattenStep<T>(vec: seq<T>, ts: seq<Tensor<T>>, i: nat)
    requires TotalSize(ts) <= |vec| && 0 < i < |ts|
    ensures TotalSize(ts[1..]) <= |vec[Numel(ts[0])..]|
    ensures Unflatten(vec, ts).Success? && Unflatten(vec[Numel(ts[0])..], ts[1..]).Success?
    ensures |Unflatten(vec, ts).value| == |ts|
    ensures |Unflatten(vec[Numel(ts[0])..], ts[1..]).value| == |ts| - 1
    ensures Unflatten(vec, ts).value[i] == Unflatten(vec[Numel(ts[0])..], ts[1..]).value[i - 1]
  {
    UnflattenDefined(vec, ts);
    UnflattenDefined(vec[Numel(ts[0])..], ts[1..]);
  }

  /** A successful vec_to_params yields one tensor per parameter, in order,
      the i-th with the i-th shape and the chunk of vec at the i-th offset. */
  lemma {:induction false} UnflattenChunks<T>(vec: seq<T>, ts: seq<Tensor<T>>, i: nat)
    requires TotalSize(ts) <= |vec| && i < |ts|
    ensures Unflatten(vec, ts).Success? && |Unflatten(vec, ts).value| == |ts|
    ensures Offset(ts, i) + Numel(ts[i]) <= |vec|
    ensures Unflatten(vec, ts).value[i].shape == ts[i].shape
    ensures Unflatten(vec, ts).value[i].data == vec[Offset(ts, i)..Offset(ts, i) + Numel(ts[i])]
  {
    UnflattenDefined(vec, ts);
    ChunkInBounds(vec, ts, i);
    if i == 0 {
      assert ts[..0] == [];
    } else {
      var n0 := Numel(ts[0]);
      var tail := vec[n0..];
      UnflattenStep(vec, ts, i);
      OffsetTail(ts, i - 1);
      assert ts[1..][i - 1] == ts[i];
      UnflattenChunks(tail, ts[1..], i - 1);
      var lo := Offset(ts[1..], i - 1);
      SliceOfDrop(vec, n0, lo, lo + Numel(ts[i]));
    }
  }

  /** Each tensor vec_to_params yields is the chunk ChunkAt describes. */
  lemma UnflattenChunkAt<T>(vec: seq<T>, ts: seq<Tensor<T>>, i: nat)
    requires TotalSize(ts) <= |vec| && i < |ts|
    ensures Unflatten(vec, ts).Success? && |Unflatten(vec, ts).value| == |ts|
    ensures ChunkAt(vec, ts, i) == Some(Unflatten(vec, ts).value[i])
  {
    UnflattenChunks(vec, ts, i);
  }

  /** A chunk is available exactly when the vector reaches the next offset. */
  lemma ChunkAtDefined<T>(vec: seq<T>, ts: seq<Tensor<T>>, i: nat)
    requires i < |ts|
    ensures ChunkAt(vec, ts, i).Some? <==> Offset(ts, i + 1) <= |vec|
    ensures ChunkAt(vec, ts, i).Some? ==> ChunkAt(vec, ts, i).value.shape == ts[i].shape
  {
    OffsetNext(ts, i);
  }

  /** The i-th chunk read off the part of vec from the i-th offset on: it
      is that part's first Numel(ts[i]) elements, and what follows them
      starts at the next offset. */
  lemma ChunkAtRest<T>(vec: seq<T>, ts: seq<Tensor<T>>, i: nat, rest: seq<T>)
    requires i < |ts| && Offset(ts, i) <= |vec| && rest == vec[Offset(ts, i)..]
    ensures ChunkAt(vec, ts, i) ==
      if Numel(ts[i]) <= |rest| then Some(TensorData(ts[i].shape, rest[..Numel(ts[i])])) else None
    ensures Numel(ts[i]) <= |rest| ==> Offset(ts, i + 1) <= |vec| && rest[Numel(ts[i])..] == vec[Offset(ts, i + 1)..]
  {
    OffsetNext(ts, i);
    var lo := Offset(ts, i);
    if Numel(ts[i]) <= |rest| {
      assert rest[..Numel(ts[i])] == vec[lo..lo + Numel(ts[i])];
      assert rest[Numel(ts[i])..] == vec[lo + Numel(ts[i])..];
    }
  }

  /** Once vec ends before a chunk does, it ends before every later chunk,
      and before the whole list. */
  lemma ChunksAfterNone<T>(vec: seq<T>, ts: seq<Tensor<T>>, i: nat)
    requires i < |ts| && ChunkAt(vec, ts, i).None?
    ensures forall j :: i <= j < |ts| ==> ChunkAt(vec, ts, j).None?
    ensures |vec| < TotalSize(ts)
  {
    forall j | i <= j < |ts|
      ensures ChunkAt(vec, ts, j).None?
    {
      ChunkAtDefined(vec, ts, i);
      ChunkAtDefined(vec, ts, j);
      OffsetMonotone(ts, i + 1, j + 1);
    }
    ChunkAtDefined(vec, ts, i);
    OffsetMonotone(ts, i + 1, |ts|);
    assert ts[..|ts|] == ts;
  }

  /** Cutting a flattened list back up gives the list itself: every tensor
      with its shape and its elements. */
  lemma {:induction false} RoundTrip<T>(ts: seq<Tensor<T>>)
    ensures Unflatten(Flatten(ts), ts) == Success(ts)
  {
    if ts != [] {
      var vec := Flatten(ts);
      var n0 := Numel(ts[0]);
      assert vec[..n0] == ts[0].data;
      assert vec[n0..] == Flatten(ts[1..]);
      RoundTrip(ts[1..]);
      assert TensorData(ts[0].shape, ts[0].data) == ts[0];
      assert [ts[0]] + ts[1..] == ts;
    }
  }

  /** Elements of vec beyond the total size play no part. */
  lemma {:induction false} TrailingIgnored<T>(vec: seq<T>, extra: seq<T>, ts: seq<Tensor<T>>)
    requires TotalSize(ts) <= |vec|
    ensures Unflatten(vec + extra, ts) == Unflatten(vec, ts)
  {
    if ts != [] {
      var n0 := Numel(ts[0]);
      assert (vec + extra)[..n0] == vec[..n0];
      assert (vec + extra)[n0..] == vec[n0..] + extra;
      TrailingIgnored(vec[n0..], extra, ts[1..]);
    }
  }

  /** The other direction of the round trip: flattening what was cut from vec
      gives back the used prefix of vec. */
  lemma {:induction false} FlattenUnflatten<T>(vec: seq<T>, ts: seq<Tensor<T>>)
    requires TotalSize(ts) <= |vec|
    ensures Unflatten(vec, ts).Success?
    ensures Flatten(Unflatten(vec, ts).value) == vec[..TotalSize(ts)]
  {
    if ts != [] {
      var n0 := Numel(ts[0]);
      var tail := vec[n0..];
      FlattenUnflatten(tail, ts[1..]);
      var rs := Unflatten(vec, ts).value;
      assert rs[1..] == Unflatten(tail, ts[1..]).value;
      assert vec[..TotalSize(ts)] == vec[..n0] + tail[..TotalSize(ts[1..])];
    }
  }

  /** The classifier's chunks start right after the extractor's: in the
      list xs + ys, the chunk of the j-th tensor of ys begins at the size of
      all of xs plus its offset within ys. */
  lemma OffsetAppend<T>(xs: seq<Tensor<T>>, ys: seq<Tensor<T>>, j: nat)
    requires j < |ys|
    ensures (xs + ys)[|xs| + j] == ys[j]
    ensures Offset(xs + ys, |xs| + j) == TotalSize(xs) + Offset(ys, j)
  {
    assert (xs + ys)[..|xs| + j] == xs + ys[..j];
    TotalSizeAppend(xs, ys[..j]);
  }

  /** Lists of tensors with the same shapes, one for one, have the same size. */
  lemma {:induction false} SameShapesSameSize<T>(xs: seq<Tensor<T>>, ys: seq<Tensor<T>>)
    requires |xs| == |ys| && forall i :: 0 <= i < |xs| ==> xs[i].shape == ys[i].shape
    ensures TotalSize(xs) == TotalSize(ys)
  {
    if xs != [] {
      SameShapesSameSize(xs[1..], ys[1..]);
    }
  }
}

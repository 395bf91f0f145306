/** view_model_param: the number of trainable numbers in a model, the sum
    over its parameter tensors of the product of each tensor's sizes. A
    tensor is given by its list of dimension sizes. */
module ModelParams {

  /** np.prod of a tensor's sizes: the number of entries it holds. */
  function Size(dims: seq<nat>): nat {
    if dims == [] then 1 else Size(dims[..|dims| - 1]) * dims[|dims| - 1]
  }

  /** The parameter count of a list of tensors, as a left-to-right sum. */
  function TotalSize(params: seq<seq<nat>>): nat {
    if params == [] then 0 else TotalSize(params[..|params| - 1]) + Size(params[|params| - 1])
  }

  /** view_model_param (lines 29-33): add up the sizes of the tensors in
      turn, starting from 0. */
  method ViewModelParam(params: seq<seq<nat>>) returns (total: nat)
    ensures total == TotalSize(params)
  {
    total := 0;
    for i := 0 to |params|
      invariant total == TotalSize(params[..i])
    {
      assert params[..i + 1][..i] == params[..i];
      total := total + Size(params[i]);
    }
    assert params[..|params|] == params;
  }

  /** A tensor holds no entries exactly when one of its sizes is 0; a
      scalar (no dimensions) holds one. */
  lemma {:induction false} SizeZeroIff(dims: seq<nat>)
    ensures Size(dims) == 0 <==> 0 in dims
    ensures dims == [] ==> Size(dims) == 1
    decreases |dims|
  {
    if dims != [] {
      var front := dims[..|dims| - 1];
      SizeZeroIff(front);
      assert dims == front + [dims[|dims| - 1]];
    }
  }

  /** The count of a concatenation is the sum of the counts. */
  lemma {:induction false} TotalSizeAppend(a: seq<seq<nat>>, b: seq<seq<nat>>)
    ensures TotalSize(a + b) == TotalSize(a) + TotalSize(b)
    decreases |b|
  {
    if b != [] {
      var front := b[..|b| - 1];
      assert (a + b)[..|a + b| - 1] == a + front;
      TotalSizeAppend(a, front);
    } else {
      assert a + b == a;
    }
  }

  /** A tensor with a zero size adds nothing to the count: dropping it
      leaves the count unchanged. */
  lemma ZeroSizedTensorAddsNothing(params: seq<seq<nat>>, i: nat)
    requires i < |params| && 0 in params[i]
    ensures TotalSize(params) == TotalSize(params[..i] + params[i + 1..])
  {
    SizeZeroIff(params[i]);
    assert params == params[..i] + [params[i]] + params[i + 1..];
    TotalSizeAppend(params[..i] + [params[i]], params[i + 1..]);
    TotalSizeAppend(params[..i], [params[i]]);
    TotalSizeAppend(params[..i], params[i + 1..]);
    assert TotalSize([params[i]]) == TotalSize([]) + Size(params[i]);
  }

  /** Every tensor's size is part of the count. */
  lemma {:induction false} TensorWithinTotal(params: seq<seq<nat>>, i: nat)
    requires i < |params|
    ensures Size(params[i]) <= TotalSize(params)
  {
    assert params == params[..i] + [params[i]] + params[i + 1..];
    TotalSizeAppend(params[..i] + [params[i]], params[i + 1..]);
    TotalSizeAppend(params[..i], [params[i]]);
    assert TotalSize([params[i]]) == TotalSize([]) + Size(params[i]);
  }
}

/** Contiguous sub-batching, as done by the embedder (sub-batches of the
    configured size), the vector store (sub-batches of 20 or 10) and the
    pipeline (slices of 50): a list is cut at 0, size, 2*size, ... */
module Batching {
  import opened Common

  /** The contiguous sub-batches of xs of size `size`, the last one possibly
      shorter. */
  function Slices<T>(xs: seq<T>, size: nat): seq<seq<T>>
    requires size > 0
    decreases |xs|
  {
    if |xs| == 0 then []
    else if |xs| <= size then [xs]
    else [xs[..size]] + Slices(xs[size..], size)
  }

  /** One step of a sub-batching loop: the sub-batches of xs[i..] are
      xs[i..min(i + size, n)] followed by those of the rest. */
  lemma SlicesStep<T>(xs: seq<T>, size: nat, i: nat)
    requires size > 0 && i < |xs|
    ensures Slices(xs[i..], size) == [xs[i..Min(i + size, |xs|)]] + Slices(xs[Min(i + size, |xs|)..], size)
  {
    if |xs| - i > size {
      assert xs[i..][..size] == xs[i..i + size];
      assert xs[i..][size..] == xs[i + size..];
    } else {
      assert Min(i + size, |xs|) == |xs| && xs[i..|xs|] == xs[i..];
      assert xs[|xs|..] == [];
    }
  }

  /** A sub-batching loop that has handed out `done` and stands at i hands
      out xs[i..min(i + size, n)] next. */
  lemma SlicesAdvance<T>(xs: seq<T>, size: nat, i: nat, done: seq<seq<T>>)
    requires size > 0 && i < |xs|
    requires Slices(xs, size) == done + Slices(xs[i..], size)
    ensures Slices(xs, size) == (done + [xs[i..Min(i + size, |xs|)]]) + Slices(xs[Min(i + size, |xs|)..], size)
  {
    SlicesStep(xs, size, i);
  }

  /** The sub-batches partition the input: concatenated in order they give
      the input back, none is empty, none is longer than `size`, and all but
      the last hold exactly `size` elements. */
  lemma {:induction false} SlicesPartition<T>(xs: seq<T>, size: nat)
    requires size > 0
    ensures Flatten(Slices(xs, size)) == xs
    ensures forall k :: 0 <= k < |Slices(xs, size)| ==> 0 < |Slices(xs, size)[k]| <= size
    ensures forall k :: 0 <= k < |Slices(xs, size)| - 1 ==> |Slices(xs, size)[k]| == size
  {
    if |xs| > size {
      SlicesPartition(xs[size..], size);
      var rest := Slices(xs[size..], size);
      assert Slices(xs, size) == [xs[..size]] + rest;
      assert ([xs[..size]] + rest)[1..] == rest;
      assert xs[..size] + xs[size..] == xs;
    }
  }

}

/** AnthropicEmbeddingService: embeds chunks through an embedding backend,
    cutting a batch into contiguous sub-batches, one backend call per
    sub-batch, and concatenating the per-sub-batch results in submission
    order. The thread pool is modelled as a sequential pass over the
    sub-batches; the backend is a function that may fail. */
module EmbeddingService {
  import opened Common
  import opened Batching

  /** The embedding client: the texts of one sub-batch to one vector per
      text, or an error. */
  type Backend = seq<string> -> Result<seq<seq<Double>>, string>

  datatype EmbedError =
    | BackendFailed(message: string)   // the client threw
    | MissingEmbedding(index: nat)     // embeddings.get(index) was out of range

  /** The embedded chunk built from chunk c and vector v. */
  function Embed(c: TextChunk, v: seq<Double>, model: string): EmbeddedChunk
  {
    EmbeddedChunk(c.id, c.documentId, c.source, c.content, c.metadata, c.chunkIndex, v, Some(model))
  }

  /** e is c with an embedding added by `model`: every field of c is kept. */
  predicate Corresponds(c: TextChunk, e: EmbeddedChunk, model: string)
  {
    e.id == c.id && e.documentId == c.documentId && e.source == c.source &&
    e.content == c.content && e.metadata == c.metadata && e.chunkIndex == c.chunkIndex &&
    e.embeddingModel == Some(model)
  }

  /** es is cs, element by element, with embeddings added by `model`. */
  predicate AllCorrespond(cs: seq<TextChunk>, es: seq<EmbeddedChunk>, model: string)
  {
    |cs| == |es| && forall i :: 0 <= i < |cs| ==> Corresponds(cs[i], es[i], model)
  }

  /** embedChunks on one sub-batch. */
  function EmbedChunksSpec(chunks: seq<TextChunk>, backend: Backend, model: string): Result<seq<EmbeddedChunk>, EmbedError>
  {
    if |chunks| == 0 then Ok([])
    else match backend(Contents(chunks))
      case Err(m) => Err(BackendFailed(m))
      case Ok(vs) =>
        if |vs| < |chunks| then Err(MissingEmbedding(|vs|))
        else Ok(seq(|chunks|, i requires 0 <= i < |chunks| => Embed(chunks[i], vs[i], model)))
  }

  /** The texts each backend call receives, in submission order. */
  function SliceTexts(slices: seq<seq<TextChunk>>): seq<seq<string>>
  {
    seq(|slices|, k requires 0 <= k < |slices| => Contents(slices[k]))
  }

  /** The result of each sub-batch, in submission order. */
  function SliceResults(slices: seq<seq<TextChunk>>, backend: Backend, model: string): seq<Result<seq<EmbeddedChunk>, EmbedError>>
  {
    seq(|slices|, k requires 0 <= k < |slices| => EmbedChunksSpec(slices[k], backend, model))
  }

  /** Joining the sub-batch results: the concatenation in order when every
      one succeeded, otherwise the error of the first one that failed. */
  function Combine(rs: seq<Result<seq<EmbeddedChunk>, EmbedError>>): Result<seq<EmbeddedChunk>, EmbedError>
  {
    if |rs| == 0 then Ok([])
    else if rs[0].Err? then Err(rs[0].error)
    else
      var rest := Combine(rs[1..]);
      if rest.Err? then rest else Ok(rs[0].value + rest.value)
  }

  /** embedBatch with sub-batch size `size`. */
  function EmbedBatchSpec(chunks: seq<TextChunk>, size: nat, backend: Backend, model: string): Result<seq<EmbeddedChunk>, EmbedError>
    requires size > 0
  {
    if |chunks| == 0 then Ok([])
    else Combine(SliceResults(Slices(chunks, size), backend, model))
  }

  /** One more sub-batch adds its result at the end. */
  lemma SliceResultsSnoc(done: seq<seq<TextChunk>>, batch: seq<TextChunk>, backend: Backend, model: string)
    ensures SliceResults(done + [batch], backend, model) == SliceResults(done, backend, model) + [EmbedChunksSpec(batch, backend, model)]
  {
  }

  /** One more sub-batch adds its texts at the end. */
  lemma SliceTextsSnoc(done: seq<seq<TextChunk>>, batch: seq<TextChunk>)
    ensures SliceTexts(done + [batch]) == SliceTexts(done) + [Contents(batch)]
  {
  }

  class AnthropicEmbeddingService {
    const modelName: string
    const batchSize: nat
    const poolSize: nat

    constructor (modelName: string, threadPoolSize: int, batchSize: int)
      ensures this.modelName == modelName
      ensures this.batchSize == if batchSize > 0 then batchSize else 10
      ensures this.poolSize == if threadPoolSize > 0 then threadPoolSize else 5
    {
      this.modelName := modelName;
      this.batchSize := if batchSize > 0 then batchSize else 10;
      this.poolSize := if threadPoolSize > 0 then threadPoolSize else 5;
    }

    /** embedBatch: every sub-batch is submitted (one backend call each),
        then the results are joined. `calls` lists the texts of each backend
        call in submission order. */
    method EmbedBatch(chunks: seq<TextChunk>, backend: Backend)
      returns (r: Result<seq<EmbeddedChunk>, EmbedError>, calls: seq<seq<string>>)
      requires batchSize > 0
      ensures r == EmbedBatchSpec(chunks, batchSize, backend, modelName)
      ensures calls == SliceTexts(Slices(chunks, batchSize))
    {
      if |chunks| == 0 {
        return Ok([]), [];
      }
      var results: seq<Result<seq<EmbeddedChunk>, EmbedError>> := [];
      calls := [];
      ghost var done: seq<seq<TextChunk>> := [];
      var i := 0;
      while i < |chunks|
        invariant 0 <= i <= |chunks|
        invariant Slices(chunks, batchSize) == done + Slices(chunks[i..], batchSize)
        invariant results == SliceResults(done, backend, modelName)
        invariant calls == SliceTexts(done)
        decreases |chunks| - i
      {
        var end := Min(i + batchSize, |chunks|);
        var batch := chunks[i..end];
        SlicesAdvance(chunks, batchSize, i, done);
        var res, sent := EmbedChunks(batch, backend);
        SliceResultsSnoc(done, batch, backend, modelName);
        SliceTextsSnoc(done, batch);
        results := results + [res];
        calls := calls + sent;
        done := done + [batch];
        i := end;
      }
      assert chunks[i..] == [];
      assert done == Slices(chunks, batchSize);
      r := Combine(results);
    }

    /** embedChunks: one backend call on the contents, then one embedded
        chunk per input chunk, taking the i-th vector. */
    method EmbedChunks(chunks: seq<TextChunk>, backend: Backend)
      returns (r: Result<seq<EmbeddedChunk>, EmbedError>, calls: seq<seq<string>>)
      ensures r == EmbedChunksSpec(chunks, backend, modelName)
      ensures calls == if |chunks| == 0 then [] else [Contents(chunks)]
    {
      if |chunks| == 0 {
        return Ok([]), [];
      }
      var texts := Contents(chunks);
      calls := [texts];
      var response := backend(texts);
      if response.Err? {
        return Err(BackendFailed(response.error)), calls;
      }
      var embeddings := response.value;
      var embeddedChunks: seq<EmbeddedChunk> := [];
      var i := 0;
      while i < |chunks|
        invariant 0 <= i <= |chunks| && i <= |embeddings|
        invariant embeddedChunks == seq(i, j requires 0 <= j < i => Embed(chunks[j], embeddings[j], modelName))
      {
        if i >= |embeddings| {
          return Err(MissingEmbedding(i)), calls;
        }
        embeddedChunks := embeddedChunks + [Embed(chunks[i], embeddings[i], modelName)];
        i := i + 1;
      }
      r := Ok(embeddedChunks);
    }
  }

  // ---------------------------------------------------------------------
  // Properties

  /** Empty input: no backend call, empty result. */
  lemma EmptyBatchMakesNoCall(size: nat, backend: Backend, model: string)
    requires size > 0
    ensures EmbedBatchSpec([], size, backend, model) == Ok([])
    ensures SliceTexts(Slices([], size)) == []
  {
  }

  /** A sub-batch succeeds exactly when the backend answers with at least one
      vector per chunk; then output i keeps chunk i's fields and carries the
      i-th vector, and vectors beyond the chunk count are ignored. */
  lemma EmbedChunksOutcome(chunks: seq<TextChunk>, backend: Backend, model: string)
    requires |chunks| > 0
    ensures var r := EmbedChunksSpec(chunks, backend, model);
      var resp := backend(Contents(chunks));
      (r.Ok? <==> resp.Ok? && |resp.value| >= |chunks|) &&
      (r.Ok? ==>
        AllCorrespond(chunks, r.value, model) &&
        forall i :: 0 <= i < |chunks| ==> r.value[i].embedding == resp.value[i])
  {
  }

  /** Each sub-batch result that succeeds corresponds to its sub-batch. */
  lemma SliceResultsCorrespond(slices: seq<seq<TextChunk>>, backend: Backend, model: string, k: nat)
    requires k < |slices|
    ensures var r := SliceResults(slices, backend, model)[k];
      r.Ok? ==> AllCorrespond(slices[k], r.value, model)
  {
    if |slices[k]| > 0 {
      EmbedChunksOutcome(slices[k], backend, model);
    }
  }

  /** The values of the sub-batch results, in order (nothing for a failed one). */
  function Values(rs: seq<Result<seq<EmbeddedChunk>, EmbedError>>): seq<seq<EmbeddedChunk>>
  {
    seq(|rs|, k requires 0 <= k < |rs| => if rs[k].Ok? then rs[k].value else [])
  }

  /** Joining: a successful join means every sub-batch succeeded, and it is
      the concatenation of their results in submission order; when every
      sub-batch result corresponds to its sub-batch, the join corresponds to
      the concatenated sub-batches. */
  lemma {:induction false} CombineCorresponds(slices: seq<seq<TextChunk>>, rs: seq<Result<seq<EmbeddedChunk>, EmbedError>>, model: string)
    requires |slices| == |rs|
    requires forall k :: 0 <= k < |rs| && rs[k].Ok? ==> AllCorrespond(slices[k], rs[k].value, model)
    ensures Combine(rs).Ok? ==> (forall k :: 0 <= k < |rs| ==> rs[k].Ok?) && Combine(rs).value == Flatten(Values(rs))
    ensures Combine(rs).Ok? ==> AllCorrespond(Flatten(slices), Combine(rs).value, model)
  {
    if |rs| > 0 && rs[0].Ok? && Combine(rs[1..]).Ok? {
      CombineCorresponds(slices[1..], rs[1..], model);
      AllCorrespondConcat(slices[0], Flatten(slices[1..]), rs[0].value, Combine(rs[1..]).value, model);
      assert Values(rs)[1..] == Values(rs[1..]);
      forall k | 0 <= k < |rs|
        ensures rs[k].Ok?
      {
        if k > 0 {
          assert rs[k] == rs[1..][k - 1];
        }
      }
    }
  }

  /** Correspondence is kept by concatenation. */
  lemma AllCorrespondConcat(a: seq<TextChunk>, b: seq<TextChunk>, x: seq<EmbeddedChunk>, y: seq<EmbeddedChunk>, model: string)
    requires AllCorrespond(a, x, model) && AllCorrespond(b, y, model)
    ensures AllCorrespond(a + b, x + y, model)
  {
    forall i | 0 <= i < |a + b|
      ensures Corresponds((a + b)[i], (x + y)[i], model)
    {
      if i >= |a| {
        assert (a + b)[i] == b[i - |a|] && (x + y)[i] == y[i - |a|];
      }
    }
  }

  /** A join fails exactly when some sub-batch failed: all or nothing. */
  lemma {:induction false} CombineFailsIffSomeFails(rs: seq<Result<seq<EmbeddedChunk>, EmbedError>>)
    ensures Combine(rs).Err? <==> exists k :: 0 <= k < |rs| && rs[k].Err?
  {
    if |rs| > 0 {
      CombineFailsIffSomeFails(rs[1..]);
      if exists k :: 0 <= k < |rs[1..]| && rs[1..][k].Err? {
        var k :| 0 <= k < |rs[1..]| && rs[1..][k].Err?;
        assert rs[k + 1].Err?;
      }
      if exists k :: 0 <= k < |rs| && rs[k].Err? {
        var k :| 0 <= k < |rs| && rs[k].Err?;
        if k > 0 {
          assert rs[1..][k - 1].Err?;
        }
      }
    }
  }

  /** Element j of sub-batch k: the backend answered that sub-batch, and
      the output at the element's position in the whole batch (after the
      elements of the sub-batches before k) carries the j-th vector of that
      answer. */
  predicate VectorAt(slices: seq<seq<TextChunk>>, out: seq<EmbeddedChunk>, backend: Backend, k: nat, j: nat)
    requires k < |slices| && j < |slices[k]|
  {
    var resp := backend(Contents(slices[k]));
    resp.Ok? && j < |resp.value| && |Flatten(slices[..k])| + j < |out| &&
    out[|Flatten(slices[..k])| + j].embedding == resp.value[j]
  }

  /** On a successful join, the output at element j of sub-batch k carries
      the j-th vector of that sub-batch's backend answer. */
  lemma SliceVectors(slices: seq<seq<TextChunk>>, backend: Backend, model: string)
    requires forall k :: 0 <= k < |slices| ==> |slices[k]| > 0
    ensures var r := Combine(SliceResults(slices, backend, model));
      r.Ok? ==> forall k, j :: 0 <= k < |slices| && 0 <= j < |slices[k]| ==>
        VectorAt(slices, r.value, backend, k, j)
  {
    var rs := SliceResults(slices, backend, model);
    var r := Combine(rs);
    forall k | 0 <= k < |rs| && rs[k].Ok?
      ensures AllCorrespond(slices[k], rs[k].value, model)
    {
      SliceResultsCorrespond(slices, backend, model, k);
    }
    CombineCorresponds(slices, rs, model);
    if r.Ok? {
      var vs := Values(rs);
      forall i | 0 <= i < |slices|
        ensures |slices[i]| == |vs[i]|
      {
        assert rs[i].Ok?;
      }
      forall k, j | 0 <= k < |slices| && 0 <= j < |slices[k]|
        ensures VectorAt(slices, r.value, backend, k, j)
      {
        assert rs[k].Ok?;
        EmbedChunksOutcome(slices[k], backend, model);
        FlattenIndex(slices, vs, k, j);
      }
    }
  }

  /** embedBatch as a whole: it fails exactly when some sub-batch fails;
      on success there is one output per input, output i keeps input i's
      fields with the service's model, and the output at element j of
      sub-batch k carries the j-th vector of that sub-batch's backend
      answer. */
  lemma EmbedBatchOutcome(chunks: seq<TextChunk>, size: nat, backend: Backend, model: string)
    requires size > 0
    ensures var slices := Slices(chunks, size);
      var r := EmbedBatchSpec(chunks, size, backend, model);
      (r.Err? <==> exists k :: 0 <= k < |slices| && EmbedChunksSpec(slices[k], backend, model).Err?) &&
      (r.Ok? ==> AllCorrespond(chunks, r.value, model)) &&
      (r.Ok? ==> forall k, j :: 0 <= k < |slices| && 0 <= j < |slices[k]| ==>
        VectorAt(slices, r.value, backend, k, j))
  {
    var slices := Slices(chunks, size);
    var rs := SliceResults(slices, backend, model);
    SlicesPartition(chunks, size);
    if |chunks| > 0 {
      CombineFailsIffSomeFails(rs);
      forall k | 0 <= k < |rs| && rs[k].Ok?
        ensures AllCorrespond(slices[k], rs[k].value, model)
      {
        SliceResultsCorrespond(slices, backend, model, k);
      }
      CombineCorresponds(slices, rs, model);
      if exists k :: 0 <= k < |slices| && EmbedChunksSpec(slices[k], backend, model).Err? {
        var k :| 0 <= k < |slices| && EmbedChunksSpec(slices[k], backend, model).Err?;
        assert rs[k].Err?;
      }
      SliceVectors(slices, backend, model);
    }
  }
}
